/** The SQLite tables of the local backend and what has to stay in step with the records table: the full-text rows,
    the chunk sets and the lane epochs that validate cached snapshots (searchkernel/indices/local_records.py,
    searchkernel/indices/local.py). A table is a map from its primary key; deleting a record cascades. */
module RecordTables {
  import opened Base
  import StorageKey

  // ----- Rows -----

  /** The columns of one record besides its key. */
  datatype Values = Values(
    workspaceId: Option<string>,
    sourceKind: string,
    sourceId: string,
    title: string,
    body: string,
    indexedText: Option<string>,
    createdAt: string,
    updatedAt: string,
    metadata: string,
    uri: string,
    keywords: string,
    status: string)
  {
    /** `indexed_text or body`. */
    function Text(): string {
      if indexedText.Some? && indexedText.value != "" then indexedText.value else body
    }

    function Indexed(): Doc { Doc(title, Text(), uri, keywords) }

    /** What keyword search can see of a record. */
    function Keyword(): (Doc, string, string) { (Indexed(), metadata, status) }
  }

  /** The indexed columns of one full-text row. */
  datatype Doc = Doc(title: string, text: string, uri: string, keywords: string)

  datatype Row = Row(rowid: nat, values: Values)
  {
    function Entry(): FtsEntry { FtsEntry(rowid, values.Indexed()) }
  }

  datatype FtsEntry = FtsEntry(rowid: nat, doc: Doc)

  /** The chunk marker in a record's metadata: none, well formed, or one the writer rejects. */
  datatype ChunkTag = NotChunk | Chunk(parent: string, id: string, index: int, metadata: string) | Malformed

  datatype ChunkRow = ChunkRow(parent: string, id: string, index: int, metadata: string)

  datatype VectorKey = VectorKey(key: string, namespace: string, dim: int)

  datatype VectorRow = VectorRow(embedding: seq<int>, revision: string, formatVersion: nat, normalization: string)

  datatype EdgeKey = EdgeKey(source: string, target: string, edgeType: string)

  /** A record handed to the writer; its embedding may be missing or not encodable. */
  datatype Embedding = Missing | Unencodable | Packed(bytes: seq<int>, revision: string)

  datatype Record = Record(key: string, values: Values, chunk: ChunkTag, embedding: Embedding)

  type Records = map<string, Row>

  function KeysOf(rows: seq<Record>): set<string> {
    set r | r in rows :: r.key
  }

  // ----- The full-text rows -----

  ghost predicate UniqueRowids(records: Records) {
    forall a, b :: a in records && b in records && records[a].rowid == records[b].rowid ==> a == b
  }

  /** The full-text entries of some of the records. */
  function Entries(records: Records, keys: set<string>): set<FtsEntry> {
    set k | k in keys && k in records :: records[k].Entry()
  }

  /** A from-scratch rebuild: one row per record. */
  function Rebuilt(records: Records): multiset<FtsEntry> {
    multiset(Entries(records, records.Keys))
  }

  lemma EntriesWithout(records: Records, keys: set<string>, k: string)
    requires UniqueRowids(records) && k in records && k in keys
    ensures multiset(Entries(records, keys)) - multiset{records[k].Entry()} == multiset(Entries(records, keys - {k}))
  {
    assert Entries(records, keys) == Entries(records, keys - {k}) + {records[k].Entry()};
    assert records[k].Entry() !in Entries(records, keys - {k});
  }

  lemma EntriesWith(records: Records, keys: set<string>, k: string)
    requires UniqueRowids(records) && k in records && k !in keys
    ensures multiset(Entries(records, keys)) + multiset{records[k].Entry()} == multiset(Entries(records, keys + {k}))
  {
    assert Entries(records, keys + {k}) == Entries(records, keys) + {records[k].Entry()};
    assert records[k].Entry() !in Entries(records, keys);
  }

  lemma EntriesAgree(before: Records, after: Records, keys: set<string>)
    requires forall k <- keys :: k in before <==> k in after
    requires forall k <- keys :: k in before ==> before[k].Entry() == after[k].Entry()
    ensures Entries(before, keys) == Entries(after, keys)
  {
    assert forall e :: e in Entries(before, keys) ==> e in Entries(after, keys) by {
      forall e | e in Entries(before, keys) ensures e in Entries(after, keys) {
        var k :| k in keys && k in before && e == before[k].Entry();
        assert after[k].Entry() == e;
      }
    }
    forall e | e in Entries(after, keys) ensures e in Entries(before, keys) {
      var k :| k in keys && k in after && e == after[k].Entry();
      assert before[k].Entry() == e;
    }
  }

  // ----- What a batch asks for -----

  /** The last values a batch gives a key. */
  function LastValues(rows: seq<Record>, key: string): Values
    requires key in KeysOf(rows)
  {
    var n := |rows| - 1;
    assert rows == rows[..n] + [rows[n]];
    if rows[n].key == key then rows[n].values else LastValues(rows[..n], key)
  }

  /** The chunk rows of a batch; a later row under the same key replaces an earlier one. */
  function ChunkRows(rows: seq<Record>): map<string, ChunkRow> {
    if rows == [] then map[]
    else
      var n := |rows| - 1;
      var last := rows[n];
      if last.chunk.Chunk?
      then ChunkRows(rows[..n])[last.key := ChunkRow(last.chunk.parent, last.chunk.id, last.chunk.index, last.chunk.metadata)]
      else ChunkRows(rows[..n])
  }

  function Parents(rows: seq<Record>): set<string> {
    set r | r in rows && r.chunk.Chunk? :: r.chunk.parent
  }

  predicate AnyMalformed(rows: seq<Record>) {
    exists r <- rows :: r.chunk.Malformed?
  }

  /** Chunks of a mentioned parent that the batch does not bring again. */
  function StaleKeys(chunks: map<string, ChunkRow>, rows: seq<Record>): set<string> {
    set k | k in chunks && chunks[k].parent in Parents(rows) && k !in ChunkRows(rows)
  }

  lemma {:induction false} ChunkRowsKeys(rows: seq<Record>)
    ensures ChunkRows(rows).Keys <= KeysOf(rows)
    ensures forall k :: k in ChunkRows(rows) ==> ChunkRows(rows)[k].parent in Parents(rows)
  {
    if rows != [] {
      var n := |rows| - 1;
      assert rows == rows[..n] + [rows[n]];
      ChunkRowsKeys(rows[..n]);
    }
  }

  function VectorsWithout(vectors: map<VectorKey, VectorRow>, keys: set<string>): map<VectorKey, VectorRow> {
    map vk | vk in vectors && vk.key !in keys :: vectors[vk]
  }

  function EdgesWithout(edges: map<EdgeKey, real>, keys: set<string>): map<EdgeKey, real> {
    map e | e in edges && e.source !in keys && e.target !in keys :: edges[e]
  }

  /** Everything a cached vector snapshot can be built from: each stored vector beside its record. */
  function VectorView(records: Records, vectors: map<VectorKey, VectorRow>): map<VectorKey, (Values, VectorRow)> {
    map vk | vk in vectors && vk.key in records :: (records[vk.key].values, vectors[vk])
  }

  function KeywordView(records: Records): map<string, (Doc, string, string)> {
    map k | k in records :: records[k].values.Keyword()
  }

  // ----- The batch's effect on the records table, computed before anything is written -----

  /** The comparison pass of `_write_records`. */
  datatype Diff = Diff(
    changed: seq<Record>,
    canonical: map<string, Values>,
    ftsChanged: set<string>,
    keywordChanged: bool)

  /** The values each key will have, and those that differ from the table. */
  ghost predicate CanonicalOf(diff: Diff, records: Records, rows: seq<Record>) {
    && (forall k :: k in diff.canonical <==> k in KeysOf(rows) || k in records)
    && (forall k :: k in diff.canonical ==>
          diff.canonical[k] == if k in KeysOf(rows) then LastValues(rows, k) else records[k].values)
  }

  ghost predicate ChangedOf(diff: Diff, records: Records, rows: seq<Record>) {
    && KeysOf(diff.changed) <= KeysOf(rows)
    && (forall k <- KeysOf(diff.changed) :: k in diff.canonical && diff.canonical[k] == LastValues(diff.changed, k))
    && (forall k :: k in diff.canonical && k !in KeysOf(diff.changed) ==>
          k in records && diff.canonical[k] == records[k].values)
  }

  /** Some row of the batch is not what the table holds under its key. */
  predicate Differs(records: Records, rows: seq<Record>) {
    exists r <- rows :: r.key !in records || records[r.key].values != r.values
  }

  /** Some row of the batch is not what keyword search sees under its key. */
  predicate DiffersInKeyword(records: Records, rows: seq<Record>) {
    exists r <- rows :: r.key !in records || records[r.key].values.Keyword() != r.values.Keyword()
  }

  /** The keys with a row that is not indexed as the table's. */
  function Reindexed(records: Records, rows: seq<Record>): set<string> {
    set r | r in rows && (r.key !in records || records[r.key].values.Indexed() != r.values.Indexed()) :: r.key
  }

  /** The flags are raised exactly for the rows that differ from the table. */
  ghost predicate FlagsOf(diff: Diff, records: Records, rows: seq<Record>) {
    && (diff.changed != [] <==> Differs(records, rows))
    && (diff.keywordChanged <==> DiffersInKeyword(records, rows))
    && diff.ftsChanged == Reindexed(records, rows)
  }

  /** Where no flag is raised, the values are still the table's. */
  ghost predicate UnflaggedOf(diff: Diff, records: Records) {
    && diff.ftsChanged <= KeysOf(diff.changed)
    && (forall k :: k in diff.canonical && k !in diff.ftsChanged ==>
          k in records && diff.canonical[k].Indexed() == records[k].values.Indexed())
    && (!diff.keywordChanged ==> forall k :: k in diff.canonical ==>
          k in records && diff.canonical[k].Keyword() == records[k].values.Keyword())
    && (diff.changed == [] ==> forall k :: k in diff.canonical ==>
          k in records && diff.canonical[k] == records[k].values)
    && (forall k :: k in records ==> k in diff.canonical)
  }

  ghost predicate DiffOf(diff: Diff, records: Records, rows: seq<Record>) {
    && CanonicalOf(diff, records, rows) && ChangedOf(diff, records, rows)
    && FlagsOf(diff, records, rows) && UnflaggedOf(diff, records)
  }

  lemma KeysAppend(rows: seq<Record>, r: Record)
    ensures KeysOf(rows + [r]) == KeysOf(rows) + {r.key}
    ensures forall k :: k in KeysOf(rows + [r]) ==>
      LastValues(rows + [r], k) == if k == r.key then r.values else LastValues(rows, k)
  {
    assert (rows + [r])[..|rows|] == rows;
  }

  /** One record against what the table, or an earlier record of the batch, says. */
  function Compare(diff: Diff, r: Record): Diff {
    if r.key in diff.canonical && diff.canonical[r.key] == r.values then diff
    else
      var next := diff.(changed := diff.changed + [r], canonical := diff.canonical[r.key := r.values]);
      if r.key !in diff.canonical then next.(ftsChanged := next.ftsChanged + {r.key}, keywordChanged := true)
      else
        var previous := diff.canonical[r.key];
        next.(
          ftsChanged := next.ftsChanged + (if previous.Indexed() != r.values.Indexed() then {r.key} else {}),
          keywordChanged := next.keywordChanged || previous.Keyword() != r.values.Keyword())
  }

  lemma CompareCanonical(diff: Diff, records: Records, rows: seq<Record>, r: Record)
    requires CanonicalOf(diff, records, rows)
    ensures CanonicalOf(Compare(diff, r), records, rows + [r])
  {
    KeysAppend(rows, r);
  }

  lemma CompareChanged(diff: Diff, records: Records, rows: seq<Record>, r: Record)
    requires ChangedOf(diff, records, rows)
    ensures ChangedOf(Compare(diff, r), records, rows + [r])
  {
    KeysAppend(rows, r);
    var next := Compare(diff, r);
    if next != diff {
      KeysAppend(diff.changed, r);
      assert next.changed == diff.changed + [r] && next.canonical == diff.canonical[r.key := r.values];
      forall k | k in KeysOf(next.changed)
        ensures k in next.canonical && next.canonical[k] == LastValues(next.changed, k)
      {
        assert k == r.key || k in KeysOf(diff.changed);
      }
    }
  }

  lemma CompareUnflagged(diff: Diff, records: Records, r: Record)
    requires UnflaggedOf(diff, records)
    ensures UnflaggedOf(Compare(diff, r), records)
  {
    KeysAppend(diff.changed, r);
  }

  lemma CompareFlags(diff: Diff, records: Records, rows: seq<Record>, r: Record)
    requires UnflaggedOf(diff, records) && FlagsOf(diff, records, rows)
    ensures FlagsOf(Compare(diff, r), records, rows + [r])
  {
    RowsAppend(records, rows, r);
  }

  lemma RowsAppend(records: Records, rows: seq<Record>, r: Record)
    ensures Differs(records, rows + [r]) <==>
      Differs(records, rows) || r.key !in records || records[r.key].values != r.values
    ensures DiffersInKeyword(records, rows + [r]) <==>
      DiffersInKeyword(records, rows) || r.key !in records || records[r.key].values.Keyword() != r.values.Keyword()
    ensures Reindexed(records, rows + [r]) == Reindexed(records, rows) +
      (if r.key !in records || records[r.key].values.Indexed() != r.values.Indexed() then {r.key} else {})
  {
    assert forall x :: x in rows + [r] <==> x in rows || x == r;
    assert r in rows + [r];
  }

  method CompareAll(records: Records, rows: seq<Record>) returns (diff: Diff)
    ensures DiffOf(diff, records, rows)
  {
    diff := Diff([], map k | k in records :: records[k].values, {}, false);
    assert forall k :: k !in KeysOf([]);
    for i := 0 to |rows|
      invariant DiffOf(diff, records, rows[..i])
    {
      assert rows[..i + 1] == rows[..i] + [rows[i]];
      CompareCanonical(diff, records, rows[..i], rows[i]);
      CompareChanged(diff, records, rows[..i], rows[i]);
      CompareFlags(diff, records, rows[..i], rows[i]);
      CompareUnflagged(diff, records, rows[i]);
      diff := Compare(diff, rows[i]);
    }
    assert rows[..|rows|] == rows;
  }

  // ----- The tables -----

  /** The records table after a batch: every key of the batch holds its last values, every other record is as it was,
      and rowids stay. */
  ghost predicate Replaced(before: Records, after: Records, rows: seq<Record>) {
    && after.Keys == before.Keys + KeysOf(rows)
    && (forall k :: k in after ==>
          after[k].values == if k in KeysOf(rows) then LastValues(rows, k) else before[k].values)
    && (forall k :: k in before ==> after[k].rowid == before[k].rowid)
  }

  /** A rowid no record has: one past the largest. */
  method NextRowid(records: Records) returns (rowid: nat)
    ensures forall k :: k in records ==> records[k].rowid < rowid
  {
    rowid := 1;
    var rest := records.Keys;
    while rest != {}
      invariant rest <= records.Keys
      invariant forall k :: k in records && k !in rest ==> records[k].rowid < rowid
      decreases rest
    {
      var k :| k in rest;
      if records[k].rowid >= rowid {
        rowid := records[k].rowid + 1;
      }
      rest := rest - {k};
    }
  }

  /** The upsert of the changed rows, in batch order. */
  method UpsertRecords(before: Records, changed: seq<Record>) returns (after: Records)
    requires UniqueRowids(before)
    ensures after.Keys == before.Keys + KeysOf(changed) && UniqueRowids(after)
    ensures forall k :: k in before ==> k in after && after[k].rowid == before[k].rowid
    ensures forall k :: k in before && k !in KeysOf(changed) ==> after[k] == before[k]
    ensures forall k :: k in KeysOf(changed) ==> after[k].values == LastValues(changed, k)
  {
    after := before;
    for i := 0 to |changed|
      invariant after.Keys == before.Keys + KeysOf(changed[..i]) && UniqueRowids(after)
      invariant forall k :: k in before ==> k in after && after[k].rowid == before[k].rowid
      invariant forall k :: k in before && k !in KeysOf(changed[..i]) ==> after[k] == before[k]
      invariant forall k :: k in KeysOf(changed[..i]) ==> after[k].values == LastValues(changed[..i], k)
    {
      assert changed[..i + 1] == changed[..i] + [changed[i]];
      KeysAppend(changed[..i], changed[i]);
      var rowid := NextRowid(after);
      after := UpsertOne(after, changed[i], rowid);
    }
    assert changed[..|changed|] == changed;
  }

  function UpsertOne(records: Records, r: Record, rowid: nat): (after: Records)
    requires UniqueRowids(records) && forall k :: k in records ==> records[k].rowid < rowid
    ensures UniqueRowids(after)
  {
    records[r.key := Row(if r.key in records then records[r.key].rowid else rowid, r.values)]
  }

  /** Full-text 'delete' commands for these keys, with the row contents the table has now. */
  method FtsDelete(fts: multiset<FtsEntry>, records: Records, indexed: set<string>, keys: set<string>)
    returns (after: multiset<FtsEntry>)
    requires UniqueRowids(records) && keys <= indexed && keys <= records.Keys
    requires fts == multiset(Entries(records, indexed))
    ensures after == multiset(Entries(records, indexed - keys))
  {
    after := fts;
    var rest := keys;
    while rest != {}
      invariant rest <= keys
      invariant after == multiset(Entries(records, indexed - (keys - rest)))
      decreases rest
    {
      var k :| k in rest;
      EntriesWithout(records, indexed - (keys - rest), k);
      assert indexed - (keys - (rest - {k})) == (indexed - (keys - rest)) - {k};
      after := after - multiset{records[k].Entry()};
      rest := rest - {k};
    }
    assert keys - rest == keys;
  }

  /** Full-text inserts for these keys. */
  method FtsInsert(fts: multiset<FtsEntry>, records: Records, indexed: set<string>, keys: set<string>)
    returns (after: multiset<FtsEntry>)
    requires UniqueRowids(records) && keys !! indexed && keys <= records.Keys
    requires fts == multiset(Entries(records, indexed))
    ensures after == multiset(Entries(records, indexed + keys))
  {
    after := fts;
    var rest := keys;
    while rest != {}
      invariant rest <= keys
      invariant after == multiset(Entries(records, indexed + (keys - rest)))
      decreases rest
    {
      var k :| k in rest;
      EntriesWith(records, indexed + (keys - rest), k);
      assert indexed + (keys - (rest - {k})) == (indexed + (keys - rest)) + {k};
      after := after + multiset{records[k].Entry()};
      rest := rest - {k};
    }
    assert keys - rest == keys;
  }

  /** The changed rows are upserted, and exactly the full-text rows whose contents change are deleted with their old
      contents and inserted with their new ones. */
  method WriteTables(before: Records, indexed: multiset<FtsEntry>, rows: seq<Record>)
    returns (after: Records, fts: multiset<FtsEntry>, recordChanged: bool, keywordChanged: bool)
    requires UniqueRowids(before) && indexed == Rebuilt(before)
    ensures UniqueRowids(after) && fts == Rebuilt(after) && Replaced(before, after, rows)
    ensures recordChanged <==> Differs(before, rows)
    ensures !recordChanged ==> after == before
    ensures keywordChanged <==> DiffersInKeyword(before, rows)
    ensures !keywordChanged ==> KeywordView(after) == KeywordView(before)
  {
    var existing := map k | k in before && k in KeysOf(rows) :: before[k];
    var diff := CompareAll(existing, rows);
    OnlyOwnRowsMatter(before, existing, rows);
    var replaced := diff.ftsChanged * existing.Keys;
    fts := FtsDelete(indexed, before, before.Keys, replaced);
    after := UpsertRecords(before, diff.changed);
    DiffCoversBatch(before, after, existing, diff, rows);
    EntriesUntouched(before, after, replaced, diff.ftsChanged);
    fts := FtsInsert(fts, after, after.Keys - diff.ftsChanged, diff.ftsChanged);
    assert after.Keys - diff.ftsChanged + diff.ftsChanged == after.Keys;
    KeywordsUntouched(before, after, diff.keywordChanged, rows);
    return after, fts, diff.changed != [], diff.keywordChanged;
  }

  lemma OnlyOwnRowsMatter(before: Records, existing: Records, rows: seq<Record>)
    requires existing == map k | k in before && k in KeysOf(rows) :: before[k]
    ensures Differs(existing, rows) <==> Differs(before, rows)
    ensures DiffersInKeyword(existing, rows) <==> DiffersInKeyword(before, rows)
  {
    assert forall r <- rows :: r.key in KeysOf(rows);
  }

  /** What the changed rows do is what the whole batch asks for, and their flags tell what changed. */
  lemma DiffCoversBatch(before: Records, after: Records, existing: Records, diff: Diff, rows: seq<Record>)
    requires existing == map k | k in before && k in KeysOf(rows) :: before[k]
    requires DiffOf(diff, existing, rows)
    requires after.Keys == before.Keys + KeysOf(diff.changed)
    requires forall k :: k in before ==> k in after && after[k].rowid == before[k].rowid
    requires forall k :: k in before && k !in KeysOf(diff.changed) ==> after[k] == before[k]
    requires forall k :: k in KeysOf(diff.changed) ==> after[k].values == LastValues(diff.changed, k)
    ensures Replaced(before, after, rows)
    ensures diff.changed == [] ==> after == before
    ensures diff.ftsChanged <= KeysOf(rows)
    ensures forall k <- KeysOf(rows) :: k !in diff.ftsChanged ==>
      k in before && after[k].values.Indexed() == before[k].values.Indexed()
    ensures !diff.keywordChanged ==> forall k <- KeysOf(rows) ::
      k in before && after[k].values.Keyword() == before[k].values.Keyword()
  {
    forall k | k in KeysOf(rows)
      ensures k in after && after[k].values == LastValues(rows, k) && after[k].values == diff.canonical[k]
    {
      assert k in diff.canonical;
    }
  }

  lemma EntriesUntouched(before: Records, after: Records, replaced: set<string>, ftsChanged: set<string>)
    requires before.Keys <= after.Keys && after.Keys - before.Keys <= ftsChanged <= after.Keys
    requires replaced == ftsChanged * before.Keys || replaced <= ftsChanged
    requires forall k :: k in before && k in ftsChanged ==> k in replaced
    requires forall k :: k in before ==> after[k].rowid == before[k].rowid
    requires forall k :: k in before && k !in ftsChanged ==> after[k].values.Indexed() == before[k].values.Indexed()
    ensures Entries(before, before.Keys - replaced) == Entries(after, after.Keys - ftsChanged)
  {
    EntriesAgree(before, after, before.Keys - ftsChanged);
    assert before.Keys - replaced == before.Keys - ftsChanged == after.Keys - ftsChanged;
  }

  lemma KeywordsUntouched(before: Records, after: Records, keywordChanged: bool, rows: seq<Record>)
    requires Replaced(before, after, rows)
    requires !keywordChanged ==> forall k <- KeysOf(rows) ::
      k in before && after[k].values.Keyword() == before[k].values.Keyword()
    ensures !keywordChanged ==> KeywordView(after) == KeywordView(before)
  {
    if !keywordChanged {
      assert after.Keys == before.Keys;
    }
  }

  // ----- One transaction -----

  /** The five tables as one transaction sees them; it commits all of them or none. */
  datatype Tables = Tables(
    records: Records,
    fts: multiset<FtsEntry>,
    chunks: map<string, ChunkRow>,
    vectors: map<VectorKey, VectorRow>,
    edges: map<EdgeKey, real>)
  {
    /** Foreign keys hold. */
    ghost predicate Linked() {
      && chunks.Keys <= records.Keys
      && (forall vk :: vk in vectors ==> vk.key in records)
      && (forall e :: e in edges ==> e.source in records && e.target in records)
    }

    /** Besides the foreign keys: rowids are unique, and the full-text rows are those of a rebuild. */
    ghost predicate Valid() {
      Linked() && UniqueRowids(records) && fts == Rebuilt(records)
    }

    function View(): map<VectorKey, (Values, VectorRow)> { VectorView(records, vectors) }

    /** Deleting records cascades to their chunk rows, vectors and edges. */
    function Without(keys: set<string>): Tables {
      this.(
        records := records - keys,
        chunks := chunks - keys,
        vectors := VectorsWithout(vectors, keys),
        edges := EdgesWithout(edges, keys))
    }

    predicate HasVector(keys: set<string>) {
      exists vk :: vk in vectors && vk.key in keys
    }

    predicate HasEdge(keys: set<string>) {
      exists e :: e in edges && (e.source in keys || e.target in keys)
    }
  }

  lemma WithoutStaysLinked(t: Tables, keys: set<string>)
    requires t.Linked()
    ensures t.Without(keys).Linked()
    ensures keys == {} ==> t.Without(keys) == t
    ensures UniqueRowids(t.records) ==> UniqueRowids(t.records - keys)
  {
    if keys == {} {
      assert t.records - keys == t.records && t.chunks - keys == t.chunks;
      assert VectorsWithout(t.vectors, keys) == t.vectors && EdgesWithout(t.edges, keys) == t.edges;
    }
  }

  /** Records leave the table together with their full-text rows. */
  method DeleteRecords(t: Tables, keys: set<string>) returns (after: Tables)
    requires t.Valid() && keys <= t.records.Keys
    ensures after.Valid() && after == t.Without(keys).(fts := after.fts)
  {
    var fts := FtsDelete(t.fts, t.records, t.records.Keys, keys);
    after := t.Without(keys).(fts := fts);
    WithoutStaysLinked(t, keys);
    EntriesAgree(t.records, after.records, t.records.Keys - keys);
    assert after.records.Keys == t.records.Keys - keys;
  }

  /** The chunk state after a batch: stale chunks of mentioned parents are gone, the batch's chunks are there. */
  function ChunksAfter(chunks: map<string, ChunkRow>, rows: seq<Record>): map<string, ChunkRow> {
    (chunks - StaleKeys(chunks, rows)) + ChunkRows(rows)
  }

  /** After a batch, the chunks of every parent it mentions are exactly the ones it brought. */
  lemma ParentsHoldExactlyTheBatch(chunks: map<string, ChunkRow>, rows: seq<Record>, parent: string)
    requires parent in Parents(rows)
    ensures
      var after := ChunksAfter(chunks, rows);
      (set k | k in after && after[k].parent == parent)
      == set k | k in ChunkRows(rows) && ChunkRows(rows)[k].parent == parent
  {
  }

  /** `_sync_chunk_state`, on a table that already holds the batch's records. `None` is the error for a malformed
      chunk marker. */
  method SyncChunkState(t: Tables, rows: seq<Record>) returns (r: Option<(Tables, bool)>)
    requires t.Valid() && KeysOf(rows) <= t.records.Keys
    ensures r.None? <==> AnyMalformed(rows)
    ensures r.Some? ==>
      var stale := StaleKeys(t.chunks, rows);
      && r.value.0.Valid()
      && r.value.0 == t.Without(stale).(fts := r.value.0.fts, chunks := ChunksAfter(t.chunks, rows))
      && (r.value.1 <==> stale != {})
  {
    if AnyMalformed(rows) {
      return None;
    }
    var brought := ChunkRows(rows);
    var stale := StaleKeys(t.chunks, rows);
    ChunkRowsKeys(rows);
    if brought == map[] {
      NoChunksNoStale(t.chunks, rows);
      WithoutStaysLinked(t, stale);
      assert ChunksAfter(t.chunks, rows) == t.chunks;
      return Some((t, false));
    }
    var after := DeleteRecords(t, stale);
    AddChunks(after, brought);
    after := after.(chunks := after.chunks + brought);
    return Some((after, stale != {}));
  }

  lemma AddChunks(t: Tables, brought: map<string, ChunkRow>)
    requires t.Valid() && brought.Keys <= t.records.Keys
    ensures t.(chunks := t.chunks + brought).Valid()
  {
  }

  lemma {:induction false} NoChunksNoStale(chunks: map<string, ChunkRow>, rows: seq<Record>)
    requires ChunkRows(rows) == map[]
    ensures StaleKeys(chunks, rows) == {}
  {
    NoChunksNoParents(rows);
  }

  lemma {:induction false} NoChunksNoParents(rows: seq<Record>)
    ensures ChunkRows(rows) == map[] ==> Parents(rows) == {}
  {
    if rows != [] {
      var n := |rows| - 1;
      assert rows == rows[..n] + [rows[n]];
      NoChunksNoParents(rows[..n]);
      assert rows[n].chunk.Chunk? ==> rows[n].key in ChunkRows(rows);
    }
  }

  /** What `_write_records` makes of the tables, given what it reports. */
  ghost predicate BatchWritten(t: Tables, after: Tables, rows: seq<Record>) {
    var stale := StaleKeys(t.chunks, rows);
    && after.Valid()
    && after.records.Keys == t.records.Keys + KeysOf(rows) - stale
    && (forall k :: k in after.records ==>
          after.records[k].values == if k in KeysOf(rows) then LastValues(rows, k) else t.records[k].values)
    && (forall k :: k in after.records && k in t.records ==> after.records[k].rowid == t.records[k].rowid)
    && after.chunks == ChunksAfter(t.chunks, rows)
    && after.vectors == VectorsWithout(t.vectors, stale)
    && after.edges == EdgesWithout(t.edges, stale)
  }

  /** A row differs from the table, or a chunk goes stale. */
  predicate RecordsMove(t: Tables, rows: seq<Record>) {
    Differs(t.records, rows) || StaleKeys(t.chunks, rows) != {}
  }

  predicate KeywordsMove(t: Tables, rows: seq<Record>) {
    DiffersInKeyword(t.records, rows) || StaleKeys(t.chunks, rows) != {}
  }

  /** `_write_records`. */
  method WriteRecords(t: Tables, rows: seq<Record>) returns (r: Option<(Tables, bool, bool)>)
    requires t.Valid()
    ensures r.None? <==> AnyMalformed(rows)
    ensures r.Some? ==> BatchWritten(t, r.value.0, rows)
    ensures r.Some? ==> r.value.1 == RecordsMove(t, rows) && r.value.2 == KeywordsMove(t, rows)
    ensures r.Some? && !r.value.1 ==>
      r.value.0.records == t.records && r.value.0.vectors == t.vectors && StaleKeys(t.chunks, rows) == {}
    ensures r.Some? && !r.value.2 ==> KeywordView(r.value.0.records) == KeywordView(t.records)
  {
    var records, fts, recordChanged, keywordChanged := WriteTables(t.records, t.fts, rows);
    var written := t.(records := records, fts := fts);
    var synced := SyncChunkState(written, rows);
    if synced.None? {
      return None;
    }
    var staleRemoved := synced.value.1;
    if !staleRemoved {
      WithoutStaysLinked(written, {});
    }
    return Some((synced.value.0, recordChanged || staleRemoved, keywordChanged || staleRemoved));
  }

  // ----- The backend: committed tables and lane epochs -----

  const VECTOR_FORMAT_VERSION := 2
  const NORMALIZATION_POLICY := "l2"

  /** Vectors of a batch by key; the last one under a key counts. */
  function PackedOf(rows: seq<Record>): map<string, VectorRow> {
    if rows == [] then map[]
    else
      var n := |rows| - 1;
      var last := rows[n].embedding;
      if last.Packed?
      then PackedOf(rows[..n])[rows[n].key := VectorRow(last.bytes, last.revision, VECTOR_FORMAT_VERSION, NORMALIZATION_POLICY)]
      else PackedOf(rows[..n])
  }

  /** The vectors of a batch that differ from the stored ones. */
  function ChangedVectors(t: Tables, rows: seq<Record>, namespace: string, dim: int): map<VectorKey, VectorRow> {
    map vk | vk in PackedKeys(rows, namespace, dim) && (vk !in t.vectors || t.vectors[vk] != PackedOf(rows)[vk.key])
      :: PackedOf(rows)[vk.key]
  }

  function PackedKeys(rows: seq<Record>, namespace: string, dim: int): (r: set<VectorKey>)
    ensures forall vk :: vk in r <==> vk.key in PackedOf(rows) && vk.namespace == namespace && vk.dim == dim
  {
    set k | k in PackedOf(rows) :: VectorKey(k, namespace, dim)
  }

  /** A batch evicts no vector behind the vector lane's back: some row it brings has a vector, or no chunk it makes
      stale has one. A caller can tell before the call. */
  predicate EvictsVisibly(t: Tables, rows: seq<Record>) {
    t.HasVector(KeysOf(rows)) || !t.HasVector(StaleKeys(t.chunks, rows))
  }

  lemma EvictionShrinksView(t: Tables, after: Tables, keys: set<string>)
    requires t.Linked() && t.HasVector(keys) && after.vectors == VectorsWithout(t.vectors, keys)
    ensures after.View() != t.View()
  {
    var vk :| vk in t.vectors && vk.key in keys;
    assert vk in t.View() && vk !in after.View();
  }

  lemma VectorsUntouched(t: Tables, keys: set<string>)
    requires !t.HasVector(keys)
    ensures VectorsWithout(t.vectors, keys) == t.vectors
  {
  }

  /** A cascade changes the edges exactly when one of them touches a record that leaves. */
  lemma EdgesCascade(edges: map<EdgeKey, real>, t: Tables, keys: set<string>)
    requires edges == EdgesWithout(t.edges, keys)
    ensures edges == t.edges <==> !t.HasEdge(keys)
  {
    if t.HasEdge(keys) {
      var e :| e in t.edges && (e.source in keys || e.target in keys);
      assert e !in edges;
    }
  }

  lemma ViewUntouched(t: Tables, after: Tables)
    requires after.vectors == t.vectors
    requires forall vk :: vk in t.vectors ==>
      vk.key in t.records && vk.key in after.records && after.records[vk.key].values == t.records[vk.key].values
    ensures after.View() == t.View()
  {
  }

  /** Without a vector among a batch's rows, the view changes exactly when the batch evicts one. */
  lemma ViewWithoutIncomingVectors(t: Tables, after: Tables, rows: seq<Record>)
    requires t.Valid() && BatchWritten(t, after, rows) && !t.HasVector(KeysOf(rows))
    ensures after.View() == t.View() <==> !t.HasVector(StaleKeys(t.chunks, rows))
  {
    var stale := StaleKeys(t.chunks, rows);
    if t.HasVector(stale) {
      EvictionShrinksView(t, after, stale);
    } else {
      VectorsUntouched(t, stale);
      forall vk | vk in t.vectors
        ensures vk.key in after.records && after.records[vk.key].values == t.records[vk.key].values
      {
        assert vk.key in t.records && vk.key !in KeysOf(rows) && vk.key !in stale;
      }
      ViewUntouched(t, after);
    }
  }

  /** What an upsert demands of its batch besides well-formed chunk markers. */
  predicate Upsertable(t: Tables, rows: seq<Record>, namespace: string, dim: int) {
    AllPacked(rows) && OneDimension(t, namespace, dim) && Writable(t, rows, namespace, dim)
  }

  predicate AllPacked(rows: seq<Record>) {
    forall row <- rows :: row.embedding.Packed?
  }

  predicate OneDimension(t: Tables, namespace: string, dim: int) {
    forall vk <- t.vectors.Keys :: vk.namespace == namespace ==> vk.dim == dim
  }

  /** No chunk marker is malformed, and no vector to be written belongs to a record the batch evicts. */
  predicate Writable(t: Tables, rows: seq<Record>, namespace: string, dim: int) {
    && !AnyMalformed(rows)
    && (forall vk <- ChangedVectors(t, rows, namespace, dim).Keys :: vk.key !in StaleKeys(t.chunks, rows))
  }

  /** An upserted batch: its records as `_write_records` leaves them, and every differing vector on top. */
  ghost predicate Upserted(t: Tables, after: Tables, rows: seq<Record>, namespace: string, dim: int) {
    var kept := VectorsWithout(t.vectors, StaleKeys(t.chunks, rows));
    && BatchWritten(t, after.(vectors := kept), rows)
    && after.vectors == kept + ChangedVectors(t, rows, namespace, dim)
  }

  predicate VectorsMove(t: Tables, rows: seq<Record>, namespace: string, dim: int) {
    ChangedVectors(t, rows, namespace, dim) != map[] || RecordsMove(t, rows)
  }

  /** The transaction of `upsert`. A vector whose record the same batch evicted violates its foreign key. */
  method UpsertTables(t: Tables, rows: seq<Record>, namespace: string, dim: int)
    returns (r: Result<(Tables, bool, bool), string>)
    requires t.Valid()
    ensures r.Ok? <==> Upsertable(t, rows, namespace, dim)
    ensures r.Ok? ==> r.value.0.Valid() && Upserted(t, r.value.0, rows, namespace, dim)
    ensures r.Ok? ==> r.value.1 == VectorsMove(t, rows, namespace, dim) && r.value.2 == KeywordsMove(t, rows)
    ensures r.Ok? && !r.value.1 ==> r.value.0.View() == t.View()
    ensures r.Ok? && !r.value.2 ==> KeywordView(r.value.0.records) == KeywordView(t.records)
  {
    if exists row <- rows :: row.embedding.Missing? {
      return Err("vector upsert requires an embedding for every record");
    }
    if !OneDimension(t, namespace, dim) {
      return Err("dimension mismatch");
    }
    if exists row <- rows :: row.embedding.Unencodable? {
      return Err("embedding cannot be encoded");
    }
    r := WriteUpsert(t, rows, namespace, dim);
  }

  /** The writing half of the transaction. */
  method WriteUpsert(t: Tables, rows: seq<Record>, namespace: string, dim: int)
    returns (r: Result<(Tables, bool, bool), string>)
    requires t.Valid()
    ensures r.Ok? <==> Writable(t, rows, namespace, dim)
    ensures r.Ok? ==> r.value.0.Valid() && Upserted(t, r.value.0, rows, namespace, dim)
    ensures r.Ok? ==> r.value.1 == VectorsMove(t, rows, namespace, dim) && r.value.2 == KeywordsMove(t, rows)
    ensures r.Ok? && !r.value.1 ==> r.value.0.View() == t.View()
    ensures r.Ok? && !r.value.2 ==> KeywordView(r.value.0.records) == KeywordView(t.records)
  {
    var changed := ChangedVectors(t, rows, namespace, dim);
    var written := WriteRecords(t, rows);
    if written.None? {
      return Err("chunk records require parent and chunk identities");
    }
    var (after, recordChanged, keywordChanged) := written.value;
    ChangedSurvive(t, after, rows, namespace, dim);
    if exists vk <- changed.Keys :: vk.key !in after.records {
      return Err("foreign key constraint failed");
    }
    AddVectors(t, after, changed, recordChanged);
    return Ok((after.(vectors := after.vectors + changed), changed != map[] || recordChanged, keywordChanged));
  }

  lemma {:induction false} PackedInBatch(rows: seq<Record>, key: string)
    requires key in PackedOf(rows)
    ensures key in KeysOf(rows)
  {
    var n := |rows| - 1;
    assert rows == rows[..n] + [rows[n]];
    if key in PackedOf(rows[..n]) {
      PackedInBatch(rows[..n], key);
    }
  }

  /** A differing vector finds its record in the written table unless the batch itself evicted that record. */
  lemma ChangedSurvive(t: Tables, after: Tables, rows: seq<Record>, namespace: string, dim: int)
    requires BatchWritten(t, after, rows)
    ensures forall vk <- ChangedVectors(t, rows, namespace, dim).Keys ::
      vk.key in after.records <==> vk.key !in StaleKeys(t.chunks, rows)
  {
    forall vk | vk in ChangedVectors(t, rows, namespace, dim)
      ensures vk.key in after.records <==> vk.key !in StaleKeys(t.chunks, rows)
    {
      PackedInBatch(rows, vk.key);
    }
  }

  lemma AddVectors(t: Tables, after: Tables, changed: map<VectorKey, VectorRow>, recordChanged: bool)
    requires after.Valid()
    requires forall vk <- changed.Keys :: vk.key in after.records
    requires !recordChanged ==> after.records == t.records && after.vectors == t.vectors
    ensures
      var added := after.(vectors := after.vectors + changed);
      && added.Valid() && added.(vectors := after.vectors) == after
      && (changed == map[] && !recordChanged ==> added.View() == t.View())
  {
    if changed == map[] {
      assert after.vectors + changed == after.vectors;
    }
  }

  // ----- Edges -----

  /** An edge handed to the graph writer; its weight may not be finite. */
  datatype EdgeRow = EdgeRow(edge: EdgeKey, weight: Option<real>)

  /** The edges once the rows are written in order. */
  function WithEdges(edges: map<EdgeKey, real>, rows: seq<EdgeRow>): map<EdgeKey, real>
    requires forall r <- rows :: r.weight.Some?
  {
    if rows == [] then edges
    else WithEdges(edges, rows[..|rows| - 1])[rows[|rows| - 1].edge := rows[|rows| - 1].weight.value]
  }

  predicate CanonicalKey(key: string) {
    StorageKey.ParseStorageKey(key).Ok?
  }

  /** The ends are canonical storage keys, and the edge has a type. */
  predicate WellFormedEdge(e: EdgeKey) {
    CanonicalKey(e.source) && CanonicalKey(e.target) && e.edgeType != ""
  }

  /** The rows are well formed and both ends of each are indexed. */
  predicate Linkable(t: Tables, rows: seq<EdgeRow>) {
    EndsIndexed(t, rows) && forall r <- rows :: WellFormedEdge(r.edge)
  }

  predicate EndsIndexed(t: Tables, rows: seq<EdgeRow>) {
    forall r <- rows :: r.weight.Some? && r.edge.source in t.records && r.edge.target in t.records
  }

  predicate Unlinkable(gone: seq<EdgeKey>) {
    forall e <- gone :: WellFormedEdge(e)
  }

  predicate EdgesDiffer(edges: map<EdgeKey, real>, rows: seq<EdgeRow>) {
    exists r <- rows :: r.edge !in edges || Some(edges[r.edge]) != r.weight
  }

  predicate EdgesListed(edges: map<EdgeKey, real>, gone: seq<EdgeKey>) {
    exists e <- gone :: e in edges
  }

  lemma WithEdgesAppend(edges: map<EdgeKey, real>, rows: seq<EdgeRow>, r: EdgeRow)
    requires r.weight.Some? && forall x <- rows :: x.weight.Some?
    ensures forall x <- rows + [r] :: x.weight.Some?
    ensures WithEdges(edges, rows + [r]) == WithEdges(edges, rows)[r.edge := r.weight.value]
  {
    assert (rows + [r])[..|rows|] == rows;
  }

  ghost predicate EdgesLinked(edges: map<EdgeKey, real>, records: Records) {
    forall e :: e in edges ==> e.source in records && e.target in records
  }

  /** The writing loop of `upsert_edges`: it reports a change exactly when some row is not what the table holds. */
  method WriteEdges(t: Tables, rows: seq<EdgeRow>) returns (edges: map<EdgeKey, real>, changed: bool)
    requires t.Valid() && EndsIndexed(t, rows)
    ensures edges == WithEdges(t.edges, rows) && t.(edges := edges).Valid()
    ensures changed <==> EdgesDiffer(t.edges, rows)
    ensures !changed ==> edges == t.edges
  {
    edges, changed := t.edges, false;
    for i := 0 to |rows|
      invariant edges == WithEdges(t.edges, rows[..i]) && EdgesLinked(edges, t.records)
      invariant changed <==> EdgesDiffer(t.edges, rows[..i])
      invariant !changed ==> edges == t.edges
    {
      assert rows[i] in rows && rows[..i + 1] == rows[..i] + [rows[i]];
      WithEdgesAppend(t.edges, rows[..i], rows[i]);
      if rows[i].edge !in edges || edges[rows[i].edge] != rows[i].weight.value {
        changed := true;
      }
      EdgesDifferAppend(t.edges, rows[..i], rows[i]);
      edges := edges[rows[i].edge := rows[i].weight.value];
    }
    assert rows[..|rows|] == rows;
  }

  lemma EdgesDifferAppend(edges: map<EdgeKey, real>, rows: seq<EdgeRow>, r: EdgeRow)
    ensures EdgesDiffer(edges, rows + [r]) <==>
      EdgesDiffer(edges, rows) || r.edge !in edges || Some(edges[r.edge]) != r.weight
  {
    assert forall x :: x in rows + [r] <==> x in rows || x == r;
    assert r in rows + [r];
  }

  // ----- What each call does to the tables and the lanes -----

  datatype State = State(tables: Tables, recordEpoch: nat, keywordEpoch: nat, vectorEpoch: nat, graphEpoch: nat)

  function One(moves: bool): nat { if moves then 1 else 0 }

  /** The lanes that move, move by one. */
  predicate LanesMove(before: State, after: State, record: bool, keyword: bool, vector: bool, graph: bool) {
    && after.recordEpoch == before.recordEpoch + One(record)
    && after.keywordEpoch == before.keywordEpoch + One(keyword)
    && after.vectorEpoch == before.vectorEpoch + One(vector)
    && after.graphEpoch == before.graphEpoch + One(graph)
  }

  predicate NothingMoves(before: State, after: State) {
    after.tables == before.tables && LanesMove(before, after, false, false, false, false)
  }

  datatype Call =
    | Index(rows: seq<Record>)
    | Upsert(rows: seq<Record>, namespace: string, dim: int)
    | Delete(keys: seq<string>)
    | Link(edges: seq<EdgeRow>)
    | Unlink(gone: seq<EdgeKey>)
    | Rebuild
    | Search(namespace: string, dim: int, materialize: bool)

  /** A batch that `index` or `upsert` writes. */
  predicate Applies(t: Tables, call: Call) {
    match call
    case Index(rows) => rows != [] && !AnyMalformed(rows)
    case Upsert(rows, namespace, dim) => rows != [] && dim >= 1 && Upsertable(t, rows, namespace, dim)
    case _ => false
  }

  /** What a batch of `index` moves: the vector lane needs a vector among the batch's own rows. */
  predicate IndexLanesMove(before: State, after: State, rows: seq<Record>) {
    var t := before.tables;
    var keyword, vector := KeywordsMove(t, rows), t.HasVector(KeysOf(rows)) && RecordsMove(t, rows);
    LanesMove(before, after, keyword || vector, keyword, vector, false)
  }

  predicate UpsertLanesMove(before: State, after: State, rows: seq<Record>, namespace: string, dim: int) {
    var t := before.tables;
    LanesMove(before, after, true, KeywordsMove(t, rows), VectorsMove(t, rows, namespace, dim), false)
  }

  /** What `delete` leaves, if there is anything to delete. */
  ghost predicate DeleteMoves(before: State, after: State, keys: seq<string>) {
    var t := before.tables;
    var gone := set k | k in keys && k in t.records;
    && after.tables.Valid() && after.tables == t.Without(gone).(fts := after.tables.fts)
    && LanesMove(before, after, true, gone != {}, t.HasVector(gone), t.HasEdge(gone))
  }

  ghost predicate LinkMoves(before: State, after: State, rows: seq<EdgeRow>)
    requires forall r <- rows :: r.weight.Some?
  {
    var edges := before.tables.edges;
    && after.tables == before.tables.(edges := WithEdges(edges, rows)) && after.tables.Valid()
    && LanesMove(before, after, EdgesDiffer(edges, rows), false, false, EdgesDiffer(edges, rows))
    && (!EdgesDiffer(edges, rows) ==> after.tables.edges == edges)
  }

  ghost predicate UnlinkMoves(before: State, after: State, gone: seq<EdgeKey>) {
    var edges := before.tables.edges;
    && after.tables == before.tables.(edges := map e | e in edges && e !in gone :: edges[e])
    && LanesMove(before, after, EdgesListed(edges, gone), false, false, EdgesListed(edges, gone))
  }

  ghost predicate RebuildMoves(before: State, after: State) {
    && after.tables == before.tables.(fts := Rebuilt(before.tables.records))
    && LanesMove(before, after, true, true, false, false)
  }

  /** One call of the backend. A call that does not apply changes nothing. */
  ghost predicate Moves(before: State, call: Call, after: State) {
    var t := before.tables;
    match call
    case Index(rows) =>
      if Applies(t, call) then BatchWritten(t, after.tables, rows) && IndexLanesMove(before, after, rows)
      else NothingMoves(before, after)
    case Upsert(rows, namespace, dim) =>
      if Applies(t, call) then
        after.tables.Valid() && Upserted(t, after.tables, rows, namespace, dim)
        && UpsertLanesMove(before, after, rows, namespace, dim)
      else NothingMoves(before, after)
    case Delete(keys) => if keys != [] then DeleteMoves(before, after, keys) else NothingMoves(before, after)
    case Link(rows) => if Linkable(t, rows) then LinkMoves(before, after, rows) else NothingMoves(before, after)
    case Unlink(gone) => if Unlinkable(gone) then UnlinkMoves(before, after, gone) else NothingMoves(before, after)
    case Rebuild => RebuildMoves(before, after)
    case Search(_, _, _) => NothingMoves(before, after)
  }

  /** An `index` batch evicts a vector behind the vector lane's back. A caller can tell before the call. */
  predicate HidesVector(t: Tables, call: Call) {
    Applies(t, call) && call.Index? && !EvictsVisibly(t, call.rows)
  }

  /** A batch makes a chunk stale that has an edge. */
  predicate HidesEdge(t: Tables, call: Call) {
    Applies(t, call) && t.HasEdge(StaleKeys(t.chunks, call.rows))
  }

  /** A lane that stands still says that what it covers is the same. */
  predicate KeywordLane(before: State, after: State) {
    after.keywordEpoch == before.keywordEpoch ==> KeywordView(after.tables.records) == KeywordView(before.tables.records)
  }

  predicate VectorLane(before: State, after: State) {
    after.vectorEpoch == before.vectorEpoch ==> after.tables.View() == before.tables.View()
  }

  predicate GraphLane(before: State, after: State) {
    after.graphEpoch == before.graphEpoch ==> after.tables.edges == before.tables.edges
  }

  predicate Forward(before: State, after: State) {
    && before.keywordEpoch <= after.keywordEpoch && before.vectorEpoch <= after.vectorEpoch
    && before.graphEpoch <= after.graphEpoch
  }

  lemma IndexLanes(before: State, after: State, rows: seq<Record>)
    requires before.tables.Valid()
    requires BatchWritten(before.tables, after.tables, rows) && IndexLanesMove(before, after, rows)
    ensures KeywordLane(before, after)
    ensures VectorLane(before, after) <==> EvictsVisibly(before.tables, rows)
    ensures GraphLane(before, after) <==> !before.tables.HasEdge(StaleKeys(before.tables.chunks, rows))
  {
    var t := before.tables;
    EdgesCascade(after.tables.edges, t, StaleKeys(t.chunks, rows));
    if !KeywordsMove(t, rows) {
      KeywordsStay(t, after.tables, rows);
    }
    if !t.HasVector(KeysOf(rows)) {
      ViewWithoutIncomingVectors(t, after.tables, rows);
    } else if !RecordsMove(t, rows) {
      ViewStays(t, after.tables, rows);
    }
  }

  lemma UpsertLanes(before: State, after: State, rows: seq<Record>, namespace: string, dim: int)
    requires before.tables.Valid() && Upserted(before.tables, after.tables, rows, namespace, dim)
    requires UpsertLanesMove(before, after, rows, namespace, dim)
    ensures KeywordLane(before, after) && VectorLane(before, after)
    ensures GraphLane(before, after) <==> !before.tables.HasEdge(StaleKeys(before.tables.chunks, rows))
  {
    var t := before.tables;
    EdgesCascade(after.tables.edges, t, StaleKeys(t.chunks, rows));
    if !KeywordsMove(t, rows) {
      UpsertKeepsKeywords(t, after.tables, rows, namespace, dim);
    }
    if !VectorsMove(t, rows, namespace, dim) {
      UpsertKeepsView(t, after.tables, rows, namespace, dim);
    }
  }

  lemma UpsertKeepsKeywords(t: Tables, after: Tables, rows: seq<Record>, namespace: string, dim: int)
    requires Upserted(t, after, rows, namespace, dim) && !KeywordsMove(t, rows)
    ensures KeywordView(after.records) == KeywordView(t.records)
  {
    KeywordsStay(t, after.(vectors := VectorsWithout(t.vectors, StaleKeys(t.chunks, rows))), rows);
  }

  lemma UpsertKeepsView(t: Tables, after: Tables, rows: seq<Record>, namespace: string, dim: int)
    requires t.Valid() && Upserted(t, after, rows, namespace, dim) && !VectorsMove(t, rows, namespace, dim)
    ensures after.View() == t.View()
  {
    var kept := VectorsWithout(t.vectors, StaleKeys(t.chunks, rows));
    var unpacked := after.(vectors := kept);
    ViewStays(t, unpacked, rows);
    NothingAdded(kept, ChangedVectors(t, rows, namespace, dim));
    assert after.records == unpacked.records && after.vectors == unpacked.vectors;
  }

  lemma NothingAdded(vectors: map<VectorKey, VectorRow>, added: map<VectorKey, VectorRow>)
    requires added == map[]
    ensures vectors + added == vectors
  {
  }

  lemma KeywordsStay(t: Tables, after: Tables, rows: seq<Record>)
    requires BatchWritten(t, after, rows) && !KeywordsMove(t, rows)
    ensures KeywordView(after.records) == KeywordView(t.records)
  {
    LastAgrees(t.records, rows);
    assert after.records.Keys == t.records.Keys;
    forall k | k in after.records ensures after.records[k].values.Keyword() == t.records[k].values.Keyword() {
    }
    SameKeywords(t.records, after.records);
  }

  lemma SameKeywords(before: Records, after: Records)
    requires after.Keys == before.Keys
    requires forall k <- after.Keys :: after[k].values.Keyword() == before[k].values.Keyword()
    ensures KeywordView(after) == KeywordView(before)
  {
  }

  lemma ViewStays(t: Tables, after: Tables, rows: seq<Record>)
    requires t.Valid() && BatchWritten(t, after, rows) && !RecordsMove(t, rows)
    ensures after.View() == t.View()
  {
    VectorsUntouched(t, {});
    LastAgrees(t.records, rows);
    ViewUntouched(t, after);
  }

  /** A batch of which no row differs asks for what is there. */
  lemma LastAgrees(records: Records, rows: seq<Record>)
    ensures !Differs(records, rows) ==> forall k <- KeysOf(rows) ::
      k in records && LastValues(rows, k) == records[k].values
    ensures !DiffersInKeyword(records, rows) ==> forall k <- KeysOf(rows) ::
      k in records && LastValues(rows, k).Keyword() == records[k].values.Keyword()
  {
    forall k | k in KeysOf(rows)
      ensures !Differs(records, rows) ==> k in records && LastValues(rows, k) == records[k].values
      ensures !DiffersInKeyword(records, rows) ==>
        k in records && LastValues(rows, k).Keyword() == records[k].values.Keyword()
    {
      LastIsRow(rows, k);
    }
  }

  lemma {:induction false} LastIsRow(rows: seq<Record>, key: string)
    requires key in KeysOf(rows)
    ensures exists r <- rows :: r.key == key && r.values == LastValues(rows, key)
  {
    var n := |rows| - 1;
    assert rows == rows[..n] + [rows[n]];
    if rows[n].key != key {
      LastIsRow(rows[..n], key);
    }
  }

  lemma DeleteLanes(before: State, after: State, keys: seq<string>)
    requires before.tables.Valid() && DeleteMoves(before, after, keys)
    ensures KeywordLane(before, after) && VectorLane(before, after) && GraphLane(before, after)
  {
    var t := before.tables;
    var gone := set k | k in keys && k in t.records;
    EdgesCascade(after.tables.edges, t, gone);
    if gone == {} {
      WithoutStaysLinked(t, gone);
    }
    if !t.HasVector(gone) {
      VectorsUntouched(t, gone);
      ViewUntouched(t, after.tables);
    }
  }

  lemma UnlinkLanes(before: State, after: State, gone: seq<EdgeKey>)
    requires before.tables.Valid() && UnlinkMoves(before, after, gone)
    ensures after.tables.Valid() && GraphLane(before, after)
  {
  }

  /** Whatever the call: the tables stay valid, every lane moves forward only, the keyword lane is sound, and the
      vector and the graph lane are sound exactly when the call hides nothing from them. */
  lemma LanesSoundExactlyWhen(before: State, call: Call, after: State)
    requires before.tables.Valid() && Moves(before, call, after)
    ensures after.tables.Valid() && Forward(before, after) && KeywordLane(before, after)
    ensures VectorLane(before, after) <==> !HidesVector(before.tables, call)
    ensures GraphLane(before, after) <==> !HidesEdge(before.tables, call)
  {
    match call
    case Index(rows) =>
      if Applies(before.tables, call) {
        IndexLanes(before, after, rows);
      }
    case Upsert(rows, namespace, dim) =>
      if Applies(before.tables, call) {
        UpsertLanes(before, after, rows, namespace, dim);
      }
    case Delete(keys) =>
      if keys != [] {
        DeleteLanes(before, after, keys);
      }
    case Unlink(gone) =>
      if Unlinkable(gone) {
        UnlinkLanes(before, after, gone);
      }
    case _ =>
  }

  class LocalBackend {
    var tables: Tables
    var recordEpoch: nat
    var keywordEpoch: nat
    var vectorEpoch: nat
    var graphEpoch: nat

    ghost function Now(): State
      reads this
    {
      State(tables, recordEpoch, keywordEpoch, vectorEpoch, graphEpoch)
    }

    constructor ()
      ensures Now() == Empty() && tables.Valid()
    {
      tables := Tables(map[], multiset{}, map[], map[], map[]);
      recordEpoch, keywordEpoch, vectorEpoch, graphEpoch := 0, 0, 0, 0;
    }

    /** `_LocalEpochLane.bump`. */
    method Bump(keyword: bool, vector: bool, graph: bool)
      modifies this`recordEpoch, this`keywordEpoch, this`vectorEpoch, this`graphEpoch
      ensures LanesMove(old(Now()), Now(), true, keyword, vector, graph)
    {
      recordEpoch := recordEpoch + 1;
      if keyword { keywordEpoch := keywordEpoch + 1; }
      if vector { vectorEpoch := vectorEpoch + 1; }
      if graph { graphEpoch := graphEpoch + 1; }
    }

    /** `index`: records and chunk state without vectors. A batch with a malformed chunk marker changes nothing. */
    method Index(rows: seq<Record>) returns (ok: bool)
      requires tables.Valid()
      modifies this
      ensures tables.Valid()
      ensures ok <==> rows == [] || !AnyMalformed(rows)
      ensures !ok || rows == [] ==> NothingMoves(old(Now()), Now())
      ensures ok && rows != [] ==>
        BatchWritten(old(tables), tables, rows) && IndexLanesMove(old(Now()), Now(), rows)
    {
      if rows == [] {
        return true;
      }
      var vectorAffected := tables.HasVector(KeysOf(rows));
      var written := WriteRecords(tables, rows);
      if written.None? {
        return false;
      }
      var (after, recordChanged, keywordChanged) := written.value;
      tables := after;
      if keywordChanged || (vectorAffected && recordChanged) {
        Bump(keywordChanged, vectorAffected && recordChanged, false);
      }
      return true;
    }

    /** `upsert`: records with their vectors. */
    method Upsert(rows: seq<Record>, namespace: string, dim: int) returns (r: Result<(), string>)
      requires tables.Valid()
      modifies this
      ensures tables.Valid()
      ensures r.Ok? <==> dim >= 1 && (rows == [] || Upsertable(old(tables), rows, namespace, dim))
      ensures r.Err? || rows == [] ==> NothingMoves(old(Now()), Now())
      ensures r.Ok? && rows != [] ==>
        && Upserted(old(tables), tables, rows, namespace, dim)
        && UpsertLanesMove(old(Now()), Now(), rows, namespace, dim)
    {
      if dim < 1 {
        return Err("dim must be positive");
      }
      if rows == [] {
        return Ok(());
      }
      var upserted := UpsertTables(tables, rows, namespace, dim);
      if upserted.Err? {
        return Err(upserted.error);
      }
      var (after, vectorAffected, keywordChanged) := upserted.value;
      tables := after;
      Bump(keywordChanged, vectorAffected, false);
      return Ok(());
    }

    /** `delete`: records go with everything that hangs on them. All lanes are sound on every call. */
    method Delete(keys: seq<string>)
      requires tables.Valid()
      modifies this
      ensures tables.Valid() && Moves(old(Now()), Call.Delete(keys), Now())
      ensures KeywordLane(old(Now()), Now()) && VectorLane(old(Now()), Now()) && GraphLane(old(Now()), Now())
    {
      if keys == [] {
        return;
      }
      ghost var before := Now();
      var gone := set k | k in keys && k in tables.records;
      var hadVectors, hadEdges := tables.HasVector(gone), tables.HasEdge(gone);
      var after := DeleteRecords(tables, gone);
      tables := after;
      Bump(gone != {}, hadVectors, hadEdges);
      DeleteLanes(before, Now(), keys);
    }

    /** `upsert_edges`: all of the edges or, if one is malformed or has an end that is not indexed, none. */
    method UpsertEdges(rows: seq<EdgeRow>) returns (ok: bool)
      requires tables.Valid()
      modifies this
      ensures tables.Valid() && Moves(old(Now()), Link(rows), Now()) && GraphLane(old(Now()), Now())
      ensures ok <==> Linkable(old(tables), rows)
    {
      if !Linkable(tables, rows) {
        return false;
      }
      var edges, changed := WriteEdges(tables, rows);
      tables := tables.(edges := edges);
      if changed {
        Bump(false, false, true);
      }
      return true;
    }

    /** `delete_edges`: all of the edges or, if one is malformed, none. */
    method DeleteEdges(gone: seq<EdgeKey>) returns (ok: bool)
      requires tables.Valid()
      modifies this
      ensures tables.Valid() && Moves(old(Now()), Unlink(gone), Now()) && GraphLane(old(Now()), Now())
      ensures ok <==> Unlinkable(gone)
    {
      if !Unlinkable(gone) {
        return false;
      }
      ghost var before := Now();
      var changed := EdgesListed(tables.edges, gone);
      tables := tables.(edges := map e | e in tables.edges && e !in gone :: tables.edges[e]);
      if changed {
        Bump(false, false, true);
      }
      UnlinkLanes(before, Now(), gone);
      return true;
    }

    /** `rebuild_keyword_index`: whatever the full-text table held, it now holds one row per record. */
    method RebuildKeywordIndex()
      requires tables.Linked() && UniqueRowids(tables.records)
      modifies this
      ensures tables.Valid() && Moves(old(Now()), Rebuild, Now())
    {
      var fts := FtsInsert(multiset{}, tables.records, {}, tables.records.Keys);
      assert {} + tables.records.Keys == tables.records.Keys;
      tables := tables.(fts := fts);
      Bump(true, false, false);
    }
  }

  // ----- Cached vector snapshots -----

  /** The columns of one snapshot row that searches always need. */
  datatype Scalars = Scalars(
    workspaceId: Option<string>, sourceKind: string, sourceId: string, status: string, vector: VectorRow)

  type View = map<VectorKey, (Values, VectorRow)>

  predicate InNamespace(vk: VectorKey, namespace: string, dim: int) {
    vk.namespace == namespace && vk.dim == dim
  }

  function ScalarsOf(view: View, namespace: string, dim: int): map<VectorKey, Scalars> {
    map vk | vk in view && InNamespace(vk, namespace, dim) ::
      Scalars(view[vk].0.workspaceId, view[vk].0.sourceKind, view[vk].0.sourceId, view[vk].0.status, view[vk].1)
  }

  function MetadataOf(view: View, namespace: string, dim: int): map<VectorKey, (string, string)> {
    map vk | vk in view && InNamespace(vk, namespace, dim) :: (view[vk].0.metadata, view[vk].0.uri)
  }

  /** A snapshot of one namespace at one vector epoch; metadata may be attached later. */
  datatype CachedSnapshot = CachedSnapshot(
    epoch: nat, scalars: map<VectorKey, Scalars>, metadata: Option<map<VectorKey, (string, string)>>)
  {
    /** What a fresh scan of the store would give. */
    predicate Equals(view: View, namespace: string, dim: int) {
      && scalars == ScalarsOf(view, namespace, dim)
      && (metadata.Some? ==> metadata.value == MetadataOf(view, namespace, dim))
    }
  }

  type Snapshots = map<(string, int), CachedSnapshot>

  /** No snapshot is ahead of the vector lane, and one at its epoch equals a fresh scan. */
  ghost predicate SnapshotsSound(snapshots: Snapshots, s: State) {
    forall key :: key in snapshots ==>
      && snapshots[key].epoch <= s.vectorEpoch
      && (snapshots[key].epoch == s.vectorEpoch ==> snapshots[key].Equals(s.tables.View(), key.0, key.1))
  }

  /** What a search makes of the cached snapshots: one of the current epoch stays and may gain its metadata, otherwise
      a fresh scan takes its place. */
  ghost predicate Fetches(before: Snapshots, after: Snapshots, s: State, namespace: string, dim: int) {
    var key := (namespace, dim);
    if key in before && before[key].epoch == s.vectorEpoch then
      after == before
      || after == before[key := before[key].(metadata := Some(MetadataOf(s.tables.View(), namespace, dim)))]
    else
      && key in after && after == before[key := after[key]]
      && after[key].epoch == s.vectorEpoch && after[key].Equals(s.tables.View(), namespace, dim)
  }

  class SnapshotCache {
    var snapshots: Snapshots

    constructor ()
      ensures snapshots == map[]
    {
      snapshots := map[];
    }

    /** `_get_vector_snapshot`: the cached snapshot at the current epoch, the same with metadata attached late, or a
        fresh scan. All three equal a fresh scan while the cached snapshots are sound. */
    method Get(b: LocalBackend, namespace: string, dim: int, materialize: bool) returns (s: Result<CachedSnapshot, string>)
      modifies this
      ensures Fetches(old(snapshots), snapshots, b.Now(), namespace, dim)
      ensures s.Ok? ==> (namespace, dim) in snapshots && s.value == snapshots[(namespace, dim)]
      ensures s.Ok? ==> s.value.epoch == b.vectorEpoch && (materialize ==> s.value.metadata.Some?)
      ensures SnapshotsSound(old(snapshots), b.Now()) ==>
        SnapshotsSound(snapshots, b.Now()) && s.Ok? && s.value.Equals(b.tables.View(), namespace, dim)
    {
      var key := (namespace, dim);
      if key in snapshots && snapshots[key].epoch == b.vectorEpoch {
        var cached := snapshots[key];
        if !materialize || cached.metadata.Some? {
          return Ok(cached);
        }
        var metadata := MetadataOf(b.tables.View(), namespace, dim);
        if metadata.Keys != cached.scalars.Keys {
          return Err("metadata rows do not match snapshot");
        }
        var attached := cached.(metadata := Some(metadata));
        snapshots := snapshots[key := attached];
        return Ok(attached);
      }
      var view := b.tables.View();
      var scanned := CachedSnapshot(
        b.vectorEpoch, ScalarsOf(view, namespace, dim),
        if materialize then Some(MetadataOf(view, namespace, dim)) else None);
      snapshots := snapshots[key := scanned];
      return Ok(scanned);
    }
  }

  // ----- Any sequence of calls -----

  /** What the store and the cache hold at one moment. */
  datatype Moment = Moment(state: State, snapshots: Snapshots)

  function Empty(): State {
    State(Tables(map[], multiset{}, map[], map[], map[]), 0, 0, 0, 0)
  }

  ghost predicate Takes(before: Moment, call: Call, after: Moment) {
    && Moves(before.state, call, after.state)
    && if call.Search? then Fetches(before.snapshots, after.snapshots, before.state, call.namespace, call.dim)
       else after.snapshots == before.snapshots
  }

  /** The moments before and after every call, from an empty store on. */
  ghost predicate History(history: seq<Moment>, calls: seq<Call>) {
    && |history| == |calls| + 1 && history[0] == Moment(Empty(), map[])
    && forall i :: 0 <= i < |calls| ==> Takes(history[i], calls[i], history[i + 1])
  }

  /** No call between two moments hides an eviction from the vector lane. */
  ghost predicate NoneHidesVector(history: seq<Moment>, calls: seq<Call>, start: nat, end: nat)
    requires start <= end <= |calls| < |history|
  {
    forall i :: start <= i < end ==> !HidesVector(history[i].state.tables, calls[i])
  }

  ghost predicate NoneHidesEdge(history: seq<Moment>, calls: seq<Call>, start: nat, end: nat)
    requires start <= end <= |calls| < |history|
  {
    forall i :: start <= i < end ==> !HidesEdge(history[i].state.tables, calls[i])
  }

  /** At every moment of every run the full-text rows are those of a rebuild and every chunk, vector and edge has its
      record. */
  lemma {:induction false} AlwaysValid(history: seq<Moment>, calls: seq<Call>, n: nat)
    requires History(history, calls) && n <= |calls|
    ensures history[n].state.tables.Valid()
  {
    if n > 0 {
      AlwaysValid(history, calls, n - 1);
      LanesSoundExactlyWhen(history[n - 1].state, calls[n - 1], history[n].state);
    }
  }

  /** Two moments of a run at the same epoch of a lane show the same there, if nothing was hidden from it in between.
      Nothing is ever hidden from the keyword lane. */
  lemma {:induction false} SameEpochSameView(history: seq<Moment>, calls: seq<Call>, start: nat, end: nat)
    requires History(history, calls) && start <= end <= |calls|
    ensures Forward(history[start].state, history[end].state) && KeywordLane(history[start].state, history[end].state)
    ensures NoneHidesVector(history, calls, start, end) ==> VectorLane(history[start].state, history[end].state)
    ensures NoneHidesEdge(history, calls, start, end) ==> GraphLane(history[start].state, history[end].state)
    decreases end
  {
    if start < end {
      SameEpochSameView(history, calls, start, end - 1);
      AlwaysValid(history, calls, end - 1);
      LanesSoundExactlyWhen(history[end - 1].state, calls[end - 1], history[end].state);
      LanesCompose(history[start].state, history[end - 1].state, history[end].state);
    }
  }

  lemma LanesCompose(a: State, b: State, c: State)
    requires Forward(a, b) && Forward(b, c)
    ensures Forward(a, c)
    ensures KeywordLane(a, b) && KeywordLane(b, c) ==> KeywordLane(a, c)
    ensures VectorLane(a, b) && VectorLane(b, c) ==> VectorLane(a, c)
    ensures GraphLane(a, b) && GraphLane(b, c) ==> GraphLane(a, c)
  {
  }

  lemma SnapshotsCarry(before: Moment, call: Call, after: Moment)
    requires before.state.tables.Valid() && Takes(before, call, after) && !HidesVector(before.state.tables, call)
    requires SnapshotsSound(before.snapshots, before.state)
    ensures SnapshotsSound(after.snapshots, after.state)
  {
    LanesSoundExactlyWhen(before.state, call, after.state);
  }

  /** As long as no batch has hidden an eviction, every cached snapshot at the current epoch equals a fresh scan. */
  lemma {:induction false} CachedEqualsFresh(history: seq<Moment>, calls: seq<Call>, n: nat)
    requires History(history, calls) && n <= |calls| && NoneHidesVector(history, calls, 0, n)
    ensures SnapshotsSound(history[n].snapshots, history[n].state)
  {
    if n > 0 {
      CachedEqualsFresh(history, calls, n - 1);
      AlwaysValid(history, calls, n - 1);
      SnapshotsCarry(history[n - 1], calls[n - 1], history[n]);
    }
  }

  /** A hidden eviction makes a current snapshot of the vector's namespace wrong at once. */
  lemma HiddenEvictionStales(before: Moment, call: Call, after: Moment, vk: VectorKey)
    requires before.state.tables.Valid() && Takes(before, call, after) && HidesVector(before.state.tables, call)
    requires vk in before.state.tables.vectors && vk.key in StaleKeys(before.state.tables.chunks, call.rows)
    requires (vk.namespace, vk.dim) in before.snapshots && SnapshotsSound(before.snapshots, before.state)
    requires before.snapshots[(vk.namespace, vk.dim)].epoch == before.state.vectorEpoch
    ensures !SnapshotsSound(after.snapshots, after.state)
  {
    var snapshot := after.snapshots[(vk.namespace, vk.dim)];
    LanesSoundExactlyWhen(before.state, call, after.state);
    assert vk in before.state.tables.View() && vk in snapshot.scalars;
    assert vk !in after.state.tables.View();
  }

  /** One call of the store or its cache. */
  method Take(b: LocalBackend, cache: SnapshotCache, call: Call)
    requires b.tables.Valid()
    modifies b, cache
    ensures b.tables.Valid()
    ensures Takes(old(Moment(b.Now(), cache.snapshots)), call, Moment(b.Now(), cache.snapshots))
  {
    match call {
      case Index(rows) =>
        var _ := b.Index(rows);
      case Upsert(rows, namespace, dim) =>
        var _ := b.Upsert(rows, namespace, dim);
      case Delete(keys) => b.Delete(keys);
      case Link(edges) =>
        var _ := b.UpsertEdges(edges);
      case Unlink(gone) =>
        var _ := b.DeleteEdges(gone);
      case Rebuild => b.RebuildKeywordIndex();
      case Search(namespace, dim, materialize) =>
        var _ := cache.Get(b, namespace, dim, materialize);
    }
  }

  /** Every sequence of calls of the store and its cache is a run as above. */
  method AnyCalls(calls: seq<Call>) returns (b: LocalBackend, cache: SnapshotCache, ghost history: seq<Moment>)
    ensures fresh(b) && fresh(cache)
    ensures History(history, calls) && history[|calls|] == Moment(b.Now(), cache.snapshots)
    ensures forall n :: 0 <= n <= |calls| ==> history[n].state.tables.Valid()
    ensures forall n :: 0 <= n <= |calls| && NoneHidesVector(history, calls, 0, n) ==>
      SnapshotsSound(history[n].snapshots, history[n].state)
  {
    b := new LocalBackend();
    cache := new SnapshotCache();
    history := [Moment(b.Now(), cache.snapshots)];
    for i := 0 to |calls|
      invariant fresh(b) && fresh(cache) && b.tables.Valid()
      invariant History(history, calls[..i]) && history[i] == Moment(b.Now(), cache.snapshots)
    {
      Take(b, cache, calls[i]);
      HistoryGrows(history, calls, i, Moment(b.Now(), cache.snapshots));
      history := history + [Moment(b.Now(), cache.snapshots)];
    }
    assert calls[..|calls|] == calls;
    RunIsSound(history, calls);
  }

  lemma RunIsSound(history: seq<Moment>, calls: seq<Call>)
    requires History(history, calls)
    ensures forall n :: 0 <= n <= |calls| ==> history[n].state.tables.Valid()
    ensures forall n :: 0 <= n <= |calls| && NoneHidesVector(history, calls, 0, n) ==>
      SnapshotsSound(history[n].snapshots, history[n].state)
  {
    forall n | 0 <= n <= |calls| ensures history[n].state.tables.Valid() {
      AlwaysValid(history, calls, n);
    }
    forall n | 0 <= n <= |calls| && NoneHidesVector(history, calls, 0, n)
      ensures SnapshotsSound(history[n].snapshots, history[n].state)
    {
      CachedEqualsFresh(history, calls, n);
    }
  }

  lemma HistoryGrows(history: seq<Moment>, calls: seq<Call>, i: nat, next: Moment)
    requires i < |calls| && History(history, calls[..i]) && Takes(history[i], calls[i], next)
    ensures History(history + [next], calls[..i + 1])
  {
    var longer := history + [next];
    forall j | 0 <= j < i + 1 ensures Takes(longer[j], calls[..i + 1][j], longer[j + 1]) {
      if j < i {
        assert Takes(history[j], calls[..i][j], history[j + 1]);
      }
    }
  }

  /** From an empty store, a batch of one chunk with its vector, a search, and a batch that replaces the chunk by
      another. */
  function HidingCalls(one: string, other: string): seq<Call> {
    [Upsert([FirstChunk(one)], "m", 1), Search("m", 1, false), Index([SecondChunk(other)])]
  }

  /** For any two keys, those calls leave the vector epoch where it was although the vector is gone, and the cached snapshot wrong. */
  lemma HiddenEviction(history: seq<Moment>, one: string, other: string)
    requires one != other && History(history, HidingCalls(one, other))
    ensures history[3].state.vectorEpoch == history[2].state.vectorEpoch
    ensures history[3].state.tables.View() != history[2].state.tables.View()
    ensures !SnapshotsSound(history[3].snapshots, history[3].state)
  {
    var calls := HidingCalls(one, other);
    AlwaysValid(history, calls, 2);
    FirstMoments(history, one, other);
    SecondChunkHides(history[2].state.tables, one, other);
    assert Takes(history[2], calls[2], history[3]);
    LanesSoundExactlyWhen(history[2].state, calls[2], history[3].state);
    CachedEqualsFresh(history, calls, 2);
    HiddenEvictionStales(history[2], calls[2], history[3], VectorKey(one, "m", 1));
  }

  lemma FirstMoments(history: seq<Moment>, one: string, other: string)
    requires History(history, HidingCalls(one, other))
    ensures
      var t := history[2].state.tables;
      t.chunks.Keys == {one} && t.chunks[one].parent == "p" && t.vectors.Keys == {VectorKey(one, "m", 1)}
    ensures ("m", 1) in history[2].snapshots
    ensures history[2].snapshots[("m", 1)].epoch == history[2].state.vectorEpoch
    ensures NoneHidesVector(history, HidingCalls(one, other), 0, 2)
  {
    var calls := HidingCalls(one, other);
    FirstChunkApplies(one);
    assert Takes(history[0], calls[0], history[1]);
    FirstStep(history[0], history[1], one);
    assert Takes(history[1], calls[1], history[2]);
  }

  lemma FirstStep(before: Moment, after: Moment, one: string)
    requires before == Moment(Empty(), map[]) && Takes(before, Upsert([FirstChunk(one)], "m", 1), after)
    ensures after.snapshots == map[] && after.state.tables.chunks.Keys == {one}
    ensures after.state.tables.chunks[one].parent == "p"
    ensures after.state.tables.vectors.Keys == {VectorKey(one, "m", 1)}
  {
    FirstChunkApplies(one);
    FirstChunkStored(after.state.tables, one);
  }

  method HidingRun(one: string, other: string) returns (b: LocalBackend, cache: SnapshotCache)
    requires one != other
    ensures !SnapshotsSound(cache.snapshots, b.Now())
  {
    ghost var history;
    b, cache, history := AnyCalls(HidingCalls(one, other));
    HiddenEviction(history, one, other);
  }

  function Note(): Values {
    Values(None, "note", "n", "", "b", None, "", "", "{}", "", "", "active")
  }

  function FirstChunk(one: string): Record { Record(one, Note(), Chunk("p", "c", 0, "{}"), Packed([1], "r")) }

  function SecondChunk(other: string): Record { Record(other, Note(), Chunk("p", "d", 0, "{}"), Missing) }

  lemma OneRow(r: Record)
    requires r.chunk.Chunk?
    ensures KeysOf([r]) == {r.key} && ChunkRows([r]).Keys == {r.key} && Parents([r]) == {r.chunk.parent}
    ensures ChunkRows([r])[r.key].parent == r.chunk.parent && !AnyMalformed([r])
    ensures PackedOf([r]).Keys == if r.embedding.Packed? then {r.key} else {}
  {
    assert [r][..0] == [] && r in [r];
  }

  lemma FirstChunkApplies(one: string)
    ensures Applies(Empty().tables, Upsert([FirstChunk(one)], "m", 1))
  {
    OneRow(FirstChunk(one));
  }

  lemma FirstChunkStored(after: Tables, one: string)
    requires Upserted(Empty().tables, after, [FirstChunk(one)], "m", 1)
    ensures VectorKey(one, "m", 1) in after.vectors && after.chunks.Keys == {one}
    ensures after.chunks[one].parent == "p" && after.vectors.Keys == {VectorKey(one, "m", 1)}
  {
    OneRow(FirstChunk(one));
  }

  lemma SecondChunkHides(t: Tables, one: string, other: string)
    requires one != other && t.chunks.Keys == {one} && t.chunks[one].parent == "p"
    requires t.vectors.Keys == {VectorKey(one, "m", 1)}
    ensures HidesVector(t, Index([SecondChunk(other)])) && one in StaleKeys(t.chunks, [SecondChunk(other)])
  {
    OneRow(SecondChunk(other));
    assert VectorKey(one, "m", 1) in t.vectors;
  }

  /** From an empty store, the chunk, an edge from the chunk to itself, and the batch that replaces it. */
  function CascadingCalls(one: string, other: string): seq<Call> {
    [Index([FirstChunk(one)]), Link([EdgeRow(EdgeKey(one, one, "e"), Some(1.0))]), Index([SecondChunk(other)])]
  }

  /** For any two keys, the first of them canonical, those calls leave the graph epoch where it was although the edge is gone. */
  lemma HiddenCascade(history: seq<Moment>, one: string, other: string)
    requires one != other && CanonicalKey(one) && History(history, CascadingCalls(one, other))
    ensures history[3].state.graphEpoch == history[2].state.graphEpoch
    ensures history[3].state.tables.edges != history[2].state.tables.edges
  {
    var calls := CascadingCalls(one, other);
    assert Takes(history[0], calls[0], history[1]);
    FirstIndexed(history[0].state, history[1].state, one);
    assert Takes(history[1], calls[1], history[2]);
    FirstLinked(history[1].state, history[2].state, one, other);
    assert Takes(history[2], calls[2], history[3]);
    AlwaysValid(history, calls, 2);
    LanesSoundExactlyWhen(history[2].state, calls[2], history[3].state);
  }

  lemma FirstIndexed(before: State, after: State, one: string)
    requires before == Empty() && Moves(before, Index([FirstChunk(one)]), after)
    ensures after.tables.chunks.Keys == {one} && after.tables.chunks[one].parent == "p"
    ensures one in after.tables.records
  {
    OneRow(FirstChunk(one));
    assert one in KeysOf([FirstChunk(one)]) && StaleKeys(before.tables.chunks, [FirstChunk(one)]) == {};
  }

  lemma FirstLinked(before: State, after: State, one: string, other: string)
    requires one != other && CanonicalKey(one)
    requires before.tables.chunks.Keys == {one} && before.tables.chunks[one].parent == "p"
    requires one in before.tables.records
    requires Moves(before, Link([EdgeRow(EdgeKey(one, one, "e"), Some(1.0))]), after)
    ensures HidesEdge(after.tables, Index([SecondChunk(other)]))
  {
    var row := EdgeRow(EdgeKey(one, one, "e"), Some(1.0));
    assert [row][..0] == [] && Linkable(before.tables, [row]);
    assert row.edge in after.tables.edges;
    OneRow(SecondChunk(other));
    assert one in StaleKeys(after.tables.chunks, [SecondChunk(other)]);
  }
}
