/** The resident FAISS index and the two ways a cached state is produced from the store:
    a rebuild and an in-place diff (searchkernel/indices/faiss_local.py).

    A stored embedding is determined by its storage key and revision, so an entry of the index carries the
    revision its vector was computed from in place of the vector. */
module FaissRefresh {
  import opened Base
  import opened VectorFilter

  type StableId = string -> int

  ghost predicate Injective(stableId: StableId) {
    forall a, b :: stableId(a) == stableId(b) ==> a == b
  }

  /** The record columns a candidate is derived from; they are also what its fingerprint digests. */
  datatype Columns = Columns(
    sourceId: string,
    workspaceId: Option<string>,
    sourceKind: string,
    status: string,
    metadata: string,
    uri: Option<string>)

  /** One row of the vector namespace, joined with its record. A revision may be absent or empty. */
  datatype StoredVector = StoredVector(key: string, columns: Columns, revision: Option<string>)
  {
    predicate Revisioned() { revision.Some? && revision.value != "" }
  }

  type Decode = string -> Metadata

  function CandidateOf(c: Columns, decode: Decode): Attributes {
    Attributes(c.sourceId, c.workspaceId, c.sourceKind, c.status, decode(c.metadata), c.uri)
  }

  // ----- The index -----

  datatype Entry = Entry(id: int, vector: string)

  ghost predicate DistinctIds(entries: seq<Entry>) {
    forall i, j :: 0 <= i < j < |entries| ==> entries[i].id != entries[j].id
  }

  function Contents(entries: seq<Entry>): map<int, string> {
    if entries == [] then map[]
    else
      var last := entries[|entries| - 1];
      Contents(entries[..|entries| - 1])[last.id := last.vector]
  }

  /** The index holds one vector per identifier, the one these revisions name. */
  ghost predicate Describes(revisions: map<int, string>, entries: seq<Entry>) {
    DistinctIds(entries) && Contents(entries) == revisions
  }

  function Without(entries: seq<Entry>, ids: set<int>): seq<Entry> {
    if entries == [] then []
    else
      var last := entries[|entries| - 1];
      var rest := Without(entries[..|entries| - 1], ids);
      if last.id in ids then rest else rest + [last]
  }

  lemma {:induction false} ContentsKeys(entries: seq<Entry>)
    ensures forall id :: id in Contents(entries) <==> exists e <- entries :: e.id == id
  {
    if entries != [] {
      var init, last := entries[..|entries| - 1], entries[|entries| - 1];
      ContentsKeys(init);
      assert entries == init + [last];
    }
  }

  lemma {:induction false} ContentsAppend(entries: seq<Entry>, e: Entry)
    ensures Contents(entries + [e]) == Contents(entries)[e.id := e.vector]
    ensures DistinctIds(entries) && e.id !in Contents(entries) ==> DistinctIds(entries + [e])
  {
    assert (entries + [e])[..|entries|] == entries;
    ContentsKeys(entries);
  }

  lemma {:induction false} ContentsCardinality(entries: seq<Entry>)
    requires DistinctIds(entries)
    ensures |entries| == |Contents(entries)|
  {
    if entries != [] {
      var init, last := entries[..|entries| - 1], entries[|entries| - 1];
      ContentsCardinality(init);
      ContentsKeys(init);
      assert Contents(entries).Keys == Contents(init).Keys + {last.id};
    }
  }

  lemma {:induction false} WithoutContents(entries: seq<Entry>, ids: set<int>)
    ensures Contents(Without(entries, ids)) == Contents(entries) - ids
  {
    if entries != [] {
      var init, last := entries[..|entries| - 1], entries[|entries| - 1];
      WithoutContents(init, ids);
      if last.id !in ids {
        ContentsAppend(Without(init, ids), last);
      }
    }
  }

  lemma {:induction false} WithoutDistinct(entries: seq<Entry>, ids: set<int>)
    requires DistinctIds(entries)
    ensures DistinctIds(Without(entries, ids))
  {
    if entries != [] {
      var init, last := entries[..|entries| - 1], entries[|entries| - 1];
      WithoutDistinct(init, ids);
      if last.id !in ids {
        ContentsKeys(init);
        WithoutContents(init, ids);
        assert last.id !in Contents(init);
        ContentsAppend(Without(init, ids), last);
      }
    }
  }

  lemma MapWithoutCardinality<K, V>(m: map<K, V>, keys: set<K>)
    requires keys <= m.Keys
    ensures |m - keys| == |m| - |keys|
  {
    assert m.Keys == (m - keys).Keys + keys;
    assert |m.Keys| == |(m - keys).Keys| + |keys|;
  }

  class ResidentIndex {
    var entries: seq<Entry>

    constructor (initial: seq<Entry>)
      ensures entries == initial
    {
      entries := initial;
    }

    /** `add_with_ids`: appends, even under an identifier that is already present. */
    method AddWithIds(batch: seq<Entry>)
      modifies this
      ensures entries == old(entries) + batch
    {
      entries := entries + batch;
    }

    /** `remove_ids`: drops every entry under one of the identifiers and counts the dropped ones. */
    method RemoveIds(ids: set<int>) returns (removed: int)
      modifies this
      ensures entries == Without(old(entries), ids)
      ensures removed == |old(entries)| - |entries|
    {
      var before := |entries|;
      entries := Without(entries, ids);
      removed := before - |entries|;
    }
  }

  /** A cached state: frozen metadata beside a shared, mutable index. */
  class FaissState {
    const index: ResidentIndex
    const epoch: nat
    const ids: seq<int>
    const keys: seq<string>
    const candidates: map<string, Attributes>
    const fingerprints: map<string, Columns>
    const active: set<int>
    const revisions: Option<map<int, string>>
    const fromDisk: bool

    constructor (index: ResidentIndex, epoch: nat, ids: seq<int>, keys: seq<string>,
                 candidates: map<string, Attributes>, fingerprints: map<string, Columns>,
                 active: set<int>, revisions: Option<map<int, string>>, fromDisk: bool)
      ensures this.index == index && this.epoch == epoch && this.ids == ids && this.keys == keys
      ensures this.candidates == candidates && this.fingerprints == fingerprints
      ensures this.active == active && this.revisions == revisions && this.fromDisk == fromDisk
    {
      this.index, this.epoch, this.ids, this.keys := index, epoch, ids, keys;
      this.candidates, this.fingerprints := candidates, fingerprints;
      this.active, this.revisions, this.fromDisk := active, revisions, fromDisk;
    }

    /** The index bytes are what the recorded revisions say they are. */
    ghost predicate Consistent()
      reads index
    {
      revisions.Some? ==> Describes(revisions.value, index.entries)
    }

    /** Every carried candidate is the one its fingerprint decodes to. */
    ghost predicate Carried(decode: Decode) {
      forall k :: k in candidates && k in fingerprints ==> candidates[k] == CandidateOf(fingerprints[k], decode)
    }
  }

  // ----- What the store says a state should be -----

  ghost predicate DistinctKeys(rows: seq<StoredVector>) {
    forall i, j :: 0 <= i < j < |rows| ==> rows[i].key != rows[j].key
  }

  function IdsOf(rows: seq<StoredVector>, stableId: StableId): seq<int> {
    seq(|rows|, i requires 0 <= i < |rows| => stableId(rows[i].key))
  }

  function KeysOf(rows: seq<StoredVector>): seq<string> {
    seq(|rows|, i requires 0 <= i < |rows| => rows[i].key)
  }

  function CandidatesOf(rows: seq<StoredVector>, decode: Decode): map<string, Attributes> {
    if rows == [] then map[]
    else
      var last := rows[|rows| - 1];
      CandidatesOf(rows[..|rows| - 1], decode)[last.key := CandidateOf(last.columns, decode)]
  }

  function FingerprintsOf(rows: seq<StoredVector>): map<string, Columns> {
    if rows == [] then map[]
    else
      var last := rows[|rows| - 1];
      FingerprintsOf(rows[..|rows| - 1])[last.key := last.columns]
  }

  function ActiveOf(rows: seq<StoredVector>, stableId: StableId): set<int> {
    set r | r in rows && r.columns.status == "active" :: stableId(r.key)
  }

  function ActiveIds(ids: seq<int>, keys: seq<string>, candidates: map<string, Attributes>): set<int>
    requires |ids| == |keys| && forall k <- keys :: k in candidates
  {
    set i | 0 <= i < |ids| && candidates[keys[i]].status == "active" :: ids[i]
  }

  predicate AllRevisioned(rows: seq<StoredVector>) {
    forall r <- rows :: r.Revisioned()
  }

  /** The revision of every live identifier. */
  function LiveRevisions(rows: seq<StoredVector>, stableId: StableId): map<int, string>
    requires AllRevisioned(rows)
  {
    if rows == [] then map[]
    else
      var last := rows[|rows| - 1];
      assert last in rows;
      LiveRevisions(rows[..|rows| - 1], stableId)[stableId(last.key) := last.revision.value]
  }

  /** The state is, field for field, the one a rebuild from these rows describes. */
  ghost predicate MatchesStore(s: FaissState, rows: seq<StoredVector>, stableId: StableId, decode: Decode) {
    && s.ids == IdsOf(rows, stableId)
    && s.keys == KeysOf(rows)
    && s.candidates == CandidatesOf(rows, decode)
    && s.fingerprints == FingerprintsOf(rows)
    && s.active == ActiveOf(rows, stableId)
  }

  lemma {:induction false} CandidatesLookup(rows: seq<StoredVector>, decode: Decode)
    requires DistinctKeys(rows)
    ensures forall r <- rows :: r.key in CandidatesOf(rows, decode)
    ensures forall r <- rows :: CandidatesOf(rows, decode)[r.key] == CandidateOf(r.columns, decode)
  {
    if rows != [] {
      var init, last := rows[..|rows| - 1], rows[|rows| - 1];
      CandidatesLookup(init, decode);
      assert rows == init + [last];
      assert forall r <- init :: r.key != last.key;
    }
  }

  lemma {:induction false} FingerprintsCarry(rows: seq<StoredVector>, decode: Decode)
    ensures CandidatesOf(rows, decode).Keys == FingerprintsOf(rows).Keys
    ensures forall k :: k in FingerprintsOf(rows) ==>
      CandidatesOf(rows, decode)[k] == CandidateOf(FingerprintsOf(rows)[k], decode)
  {
    if rows != [] {
      FingerprintsCarry(rows[..|rows| - 1], decode);
    }
  }

  lemma ActiveIdsOf(rows: seq<StoredVector>, stableId: StableId, decode: Decode)
    requires DistinctKeys(rows)
    ensures forall k <- KeysOf(rows) :: k in CandidatesOf(rows, decode)
    ensures ActiveIds(IdsOf(rows, stableId), KeysOf(rows), CandidatesOf(rows, decode)) == ActiveOf(rows, stableId)
  {
    CandidatesLookup(rows, decode);
    var keys, candidates := KeysOf(rows), CandidatesOf(rows, decode);
    forall i | 0 <= i < |rows| ensures keys[i] in candidates && candidates[keys[i]].status == rows[i].columns.status {
      assert rows[i] in rows;
    }
    var ids := IdsOf(rows, stableId);
    var left := ActiveIds(ids, keys, candidates);
    forall id ensures id in left <==> id in ActiveOf(rows, stableId) {
      if id in ActiveOf(rows, stableId) {
        var r :| r in rows && r.columns.status == "active" && stableId(r.key) == id;
        var i :| 0 <= i < |rows| && rows[i] == r;
        assert ids[i] == id;
      }
    }
  }

  lemma {:induction false} LiveRevisionsAt(rows: seq<StoredVector>, stableId: StableId)
    requires DistinctKeys(rows) && AllRevisioned(rows) && Injective(stableId)
    ensures forall r <- rows ::
      stableId(r.key) in LiveRevisions(rows, stableId)
      && LiveRevisions(rows, stableId)[stableId(r.key)] == r.revision.value
  {
    if rows != [] {
      var init, last := rows[..|rows| - 1], rows[|rows| - 1];
      LiveRevisionsAt(init, stableId);
      assert rows == init + [last];
      assert forall r <- init :: r.key != last.key;
    }
  }

  lemma {:induction false} LiveRevisionsKeys(rows: seq<StoredVector>, stableId: StableId)
    requires AllRevisioned(rows)
    ensures forall id :: id in LiveRevisions(rows, stableId) ==> exists r <- rows :: stableId(r.key) == id
  {
    if rows != [] {
      var init, last := rows[..|rows| - 1], rows[|rows| - 1];
      assert rows == init + [last];
      LiveRevisionsKeys(init, stableId);
    }
  }

  lemma {:induction false} LiveRevisionsCount(rows: seq<StoredVector>, stableId: StableId)
    requires DistinctKeys(rows) && AllRevisioned(rows) && Injective(stableId)
    ensures |LiveRevisions(rows, stableId)| == |rows|
  {
    if rows != [] {
      var init, last := rows[..|rows| - 1], rows[|rows| - 1];
      LiveRevisionsCount(init, stableId);
      LiveRevisionsKeys(init, stableId);
      assert forall r <- init :: r.key != last.key;
      assert stableId(last.key) !in LiveRevisions(init, stableId);
      assert LiveRevisions(rows, stableId).Keys == LiveRevisions(init, stableId).Keys + {stableId(last.key)};
    }
  }

  lemma LiveRevisionsOf(rows: seq<StoredVector>, stableId: StableId)
    requires DistinctKeys(rows) && AllRevisioned(rows) && Injective(stableId)
    ensures forall id :: id in LiveRevisions(rows, stableId) <==> exists r <- rows :: stableId(r.key) == id
    ensures forall r <- rows :: stableId(r.key) in LiveRevisions(rows, stableId)
    ensures forall r <- rows :: LiveRevisions(rows, stableId)[stableId(r.key)] == r.revision.value
    ensures |LiveRevisions(rows, stableId)| == |rows|
  {
    LiveRevisionsAt(rows, stableId);
    LiveRevisionsKeys(rows, stableId);
    LiveRevisionsCount(rows, stableId);
  }

  // ----- The in-place diff -----

  /** The row's vector is not the one resident under its identifier. */
  predicate Changed(resident: map<int, string>, r: StoredVector, stableId: StableId)
    requires r.Revisioned()
  {
    stableId(r.key) !in resident || resident[stableId(r.key)] != r.revision.value
  }

  function PendingOf(resident: map<int, string>, rows: seq<StoredVector>, stableId: StableId): seq<StoredVector>
    requires AllRevisioned(rows)
  {
    if rows == [] then []
    else
      var last := rows[|rows| - 1];
      assert last in rows;
      var rest := PendingOf(resident, rows[..|rows| - 1], stableId);
      if Changed(resident, last, stableId) then rest + [last] else rest
  }

  function ReplacedOf(resident: map<int, string>, rows: seq<StoredVector>, stableId: StableId): set<int>
    requires AllRevisioned(rows)
  {
    set r | r in rows && stableId(r.key) in resident && Changed(resident, r, stableId) :: stableId(r.key)
  }

  function Tombstones(resident: map<int, string>, live: map<int, string>): map<int, string> {
    map id | id in resident && id !in live :: resident[id]
  }

  /** Tombstones exceed a quarter of what would be resident. */
  predicate CompactionDue(resident: map<int, string>, live: map<int, string>) {
    4 * |Tombstones(resident, live)| > |live| + |Tombstones(resident, live)|
  }

  /** The change shapes the diff hands to a rebuild. */
  predicate RebuildRequired(base: FaissState, rows: seq<StoredVector>, exact: bool, stableId: StableId) {
    || base.revisions.None?
    || !AllRevisioned(rows)
    || CompactionDue(base.revisions.value, LiveRevisions(rows, stableId))
    || (!exact && ReplacedOf(base.revisions.value, rows, stableId) != {})
  }

  /** The embeddings read second belong to the revisions read first. */
  ghost predicate Unmoved(rows: seq<StoredVector>, embeddings: map<string, string>) {
    forall r <- rows :: r.key in embeddings && (r.Revisioned() ==> embeddings[r.key] == r.revision.value)
  }

  lemma {:induction false} PendingMembers(resident: map<int, string>, rows: seq<StoredVector>, stableId: StableId)
    requires AllRevisioned(rows)
    ensures forall r :: r in PendingOf(resident, rows, stableId) <==> r in rows && Changed(resident, r, stableId)
    ensures DistinctKeys(rows) ==> DistinctKeys(PendingOf(resident, rows, stableId))
  {
    if rows != [] {
      var init, last := rows[..|rows| - 1], rows[|rows| - 1];
      assert rows == init + [last];
      PendingMembers(resident, init, stableId);
      if DistinctKeys(rows) {
        assert forall r <- init :: r.key != last.key;
      }
    }
  }

  lemma LiveRowOf(rows: seq<StoredVector>, stableId: StableId, id: int) returns (r: StoredVector)
    requires DistinctKeys(rows) && AllRevisioned(rows) && Injective(stableId)
    requires id in LiveRevisions(rows, stableId)
    ensures r in rows && stableId(r.key) == id && LiveRevisions(rows, stableId)[id] == r.revision.value
  {
    LiveRevisionsOf(rows, stableId);
    r :| r in rows && stableId(r.key) == id;
  }

  lemma RowOfId(rows: seq<StoredVector>, stableId: StableId, a: StoredVector, b: StoredVector)
    requires DistinctKeys(rows) && Injective(stableId)
    requires a in rows && b in rows && stableId(a.key) == stableId(b.key)
    ensures a == b
  {
  }

  lemma PendingLive(resident: map<int, string>, rows: seq<StoredVector>, stableId: StableId, id: int)
    requires DistinctKeys(rows) && AllRevisioned(rows) && Injective(stableId)
    requires AllRevisioned(PendingOf(resident, rows, stableId))
    ensures
      var live := LiveRevisions(rows, stableId);
      var added := LiveRevisions(PendingOf(resident, rows, stableId), stableId);
      && (id in added <==> id in live && (id !in resident || resident[id] != live[id]))
      && (id in added ==> added[id] == live[id])
      && (id in ReplacedOf(resident, rows, stableId) <==> id in resident && id in added)
  {
    var live, pending := LiveRevisions(rows, stableId), PendingOf(resident, rows, stableId);
    var added := LiveRevisions(pending, stableId);
    PendingMembers(resident, rows, stableId);
    if id in live {
      var r := LiveRowOf(rows, stableId, id);
      LiveRevisionsOf(pending, stableId);
      assert r in pending <==> Changed(resident, r, stableId);
      if id in added {
        var q := LiveRowOf(pending, stableId, id);
        RowOfId(rows, stableId, q, r);
      }
      forall q | q in rows && stableId(q.key) == id ensures q == r {
        RowOfId(rows, stableId, q, r);
      }
    } else {
      LiveRevisionsOf(rows, stableId);
      if id in added {
        var _ := LiveRowOf(pending, stableId, id);
      }
    }
  }

  /** Dropping the replaced vectors and adding the pending ones leaves the live revisions beside the tombstones. */
  lemma DiffContents(resident: map<int, string>, rows: seq<StoredVector>, stableId: StableId)
    requires DistinctKeys(rows) && AllRevisioned(rows) && Injective(stableId)
    ensures AllRevisioned(PendingOf(resident, rows, stableId))
    ensures
      var live := LiveRevisions(rows, stableId);
      (resident - ReplacedOf(resident, rows, stableId)) + LiveRevisions(PendingOf(resident, rows, stableId), stableId)
      == live + Tombstones(resident, live)
  {
    PendingMembers(resident, rows, stableId);
    var live := LiveRevisions(rows, stableId);
    var left := (resident - ReplacedOf(resident, rows, stableId))
      + LiveRevisions(PendingOf(resident, rows, stableId), stableId);
    var right := live + Tombstones(resident, live);
    forall id ensures (id in left <==> id in right) && (id in left ==> left[id] == right[id]) {
      PendingLive(resident, rows, stableId, id);
    }
  }

  datatype Plan = Plan(
    ids: seq<int>,
    keys: seq<string>,
    candidates: map<string, Attributes>,
    fingerprints: map<string, Columns>,
    live: map<int, string>,
    pending: seq<StoredVector>,
    replaced: set<int>)

  /** What the classification pass has collected from these rows. */
  ghost predicate PlanOf(p: Plan, resident: map<int, string>, rows: seq<StoredVector>, stableId: StableId, decode: Decode) {
    && AllRevisioned(rows)
    && p.ids == IdsOf(rows, stableId) && p.keys == KeysOf(rows)
    && p.candidates == CandidatesOf(rows, decode) && p.fingerprints == FingerprintsOf(rows)
    && p.live == LiveRevisions(rows, stableId)
    && p.pending == PendingOf(resident, rows, stableId) && p.replaced == ReplacedOf(resident, rows, stableId)
  }

  /** One row of the classification pass. */
  method ClassifyRow(
      base: FaissState, p: Plan, ghost rows: seq<StoredVector>, row: StoredVector, stableId: StableId, decode: Decode)
      returns (next: Plan)
    requires base.Carried(decode) && base.revisions.Some? && row.Revisioned()
    requires PlanOf(p, base.revisions.value, rows, stableId, decode)
    ensures PlanOf(next, base.revisions.value, rows + [row], stableId, decode)
  {
    var resident := base.revisions.value;
    OneMoreStored(rows, row, stableId, decode);
    OneMoreRow(resident, rows, row, stableId);
    var id := stableId(row.key);
    var candidate := CandidateOf(row.columns, decode);
    if row.key in base.candidates && row.key in base.fingerprints && base.fingerprints[row.key] == row.columns {
      candidate := base.candidates[row.key];
    }
    var pending, replaced := p.pending, p.replaced;
    if id !in resident {
      pending := pending + [row];
    } else if resident[id] != row.revision.value {
      pending, replaced := pending + [row], replaced + {id};
    }
    next := Plan(
      p.ids + [id], p.keys + [row.key], p.candidates[row.key := candidate], p.fingerprints[row.key := row.columns],
      p.live[id := row.revision.value], pending, replaced);
  }

  /** The classification pass: nothing is mutated, and any shape that needs a rebuild yields no plan. */
  method Classify(base: FaissState, rows: seq<StoredVector>, exact: bool, stableId: StableId, decode: Decode)
    returns (plan: Option<Plan>)
    requires base.Carried(decode) && DistinctKeys(rows) && Injective(stableId)
    ensures plan.None? <==> RebuildRequired(base, rows, exact, stableId)
    ensures plan.Some? ==> PlanOf(plan.value, base.revisions.value, rows, stableId, decode)
  {
    if base.revisions.None? {
      return None;
    }
    var resident := base.revisions.value;
    var p := Plan([], [], map[], map[], map[], [], {});
    for i := 0 to |rows|
      invariant PlanOf(p, resident, rows[..i], stableId, decode)
    {
      if !rows[i].Revisioned() {
        assert rows[i] in rows;
        return None;
      }
      p := ClassifyRow(base, p, rows[..i], rows[i], stableId, decode);
      assert rows[..i + 1] == rows[..i] + [rows[i]];
    }
    assert rows[..|rows|] == rows;
    if CompactionDue(resident, p.live) || (p.replaced != {} && !exact) {
      return None;
    }
    return Some(p);
  }

  lemma OneMoreRow(resident: map<int, string>, rows: seq<StoredVector>, row: StoredVector, stableId: StableId)
    requires AllRevisioned(rows) && row.Revisioned()
    ensures AllRevisioned(rows + [row])
    ensures LiveRevisions(rows + [row], stableId) == LiveRevisions(rows, stableId)[stableId(row.key) := row.revision.value]
    ensures PendingOf(resident, rows + [row], stableId)
      == PendingOf(resident, rows, stableId) + (if Changed(resident, row, stableId) then [row] else [])
    ensures ReplacedOf(resident, rows + [row], stableId)
      == ReplacedOf(resident, rows, stableId)
         + (if stableId(row.key) in resident && Changed(resident, row, stableId) then {stableId(row.key)} else {})
  {
    assert (rows + [row])[..|rows|] == rows;
  }

  lemma OneMoreStored(rows: seq<StoredVector>, row: StoredVector, stableId: StableId, decode: Decode)
    ensures IdsOf(rows + [row], stableId) == IdsOf(rows, stableId) + [stableId(row.key)]
    ensures KeysOf(rows + [row]) == KeysOf(rows) + [row.key]
    ensures CandidatesOf(rows + [row], decode) == CandidatesOf(rows, decode)[row.key := CandidateOf(row.columns, decode)]
    ensures FingerprintsOf(rows + [row]) == FingerprintsOf(rows)[row.key := row.columns]
  {
    assert (rows + [row])[..|rows|] == rows;
  }

  datatype Refresh = Updated(state: FaissState) | NeedsRebuild | Raised

  /** Adding the pending vectors: `added` counts the rows the second read still found. */
  method AddPending(index: ResidentIndex, pending: seq<StoredVector>, embeddings: map<string, string>, stableId: StableId)
    returns (added: nat)
    requires DistinctKeys(pending) && AllRevisioned(pending) && Injective(stableId)
    modifies index
    ensures Unmoved(pending, embeddings)
         && DistinctIds(old(index.entries))
         && (forall r <- pending :: stableId(r.key) !in Contents(old(index.entries)))
      ==> added == |pending|
          && Describes(Contents(old(index.entries)) + LiveRevisions(pending, stableId), index.entries)
  {
    ghost var fits := Unmoved(pending, embeddings) && DistinctIds(index.entries)
                      && forall r <- pending :: stableId(r.key) !in Contents(index.entries);
    ghost var base := Contents(index.entries);
    added := 0;
    for i := 0 to |pending|
      invariant AllRevisioned(pending[..i])
      invariant fits ==> added == i && Describes(base + LiveRevisions(pending[..i], stableId), index.entries)
    {
      var row := pending[i];
      assert row in pending && pending[..i + 1] == pending[..i] + [row];
      if row.key in embeddings {
        if fits {
          AddOne(base, index.entries, pending[..i], row, stableId);
        }
        index.AddWithIds([Entry(stableId(row.key), embeddings[row.key])]);
        added := added + 1;
      }
    }
    assert pending[..|pending|] == pending;
  }

  lemma AddOne(
      base: map<int, string>, entries: seq<Entry>, seen: seq<StoredVector>, row: StoredVector, stableId: StableId)
    requires DistinctKeys(seen + [row]) && AllRevisioned(seen + [row]) && AllRevisioned(seen) && Injective(stableId)
    requires Describes(base + LiveRevisions(seen, stableId), entries)
    requires row.Revisioned() && stableId(row.key) !in base
    ensures Describes(base + LiveRevisions(seen + [row], stableId), entries + [Entry(stableId(row.key), row.revision.value)])
  {
    OneMoreLive(seen, row, stableId);
    NotLiveYet(seen, row, stableId);
    ContentsAppend(entries, Entry(stableId(row.key), row.revision.value));
    PutLast(base, LiveRevisions(seen, stableId), stableId(row.key), row.revision.value);
  }

  lemma PutLast(base: map<int, string>, live: map<int, string>, id: int, revision: string)
    ensures base + live[id := revision] == (base + live)[id := revision]
  {
  }

  lemma NotLiveYet(seen: seq<StoredVector>, row: StoredVector, stableId: StableId)
    requires DistinctKeys(seen + [row]) && AllRevisioned(seen) && Injective(stableId)
    ensures stableId(row.key) !in LiveRevisions(seen, stableId)
  {
    var grown := seen + [row];
    assert grown[|seen|] == row;
    assert forall i | 0 <= i < |seen| :: grown[i] == seen[i];
    if stableId(row.key) in LiveRevisions(seen, stableId) {
      var _ := LiveRowOf(seen, stableId, stableId(row.key));
    }
  }

  lemma OneMoreLive(rows: seq<StoredVector>, row: StoredVector, stableId: StableId)
    requires AllRevisioned(rows) && row.Revisioned()
    ensures AllRevisioned(rows + [row])
    ensures LiveRevisions(rows + [row], stableId) == LiveRevisions(rows, stableId)[stableId(row.key) := row.revision.value]
  {
    assert (rows + [row])[..|rows|] == rows;
  }

  /** `_update_state`: advance `base` by re-adding only changed vectors. `rows` is the identity read, `embeddings`
      the later read of the vectors, `epochAfter` the vector epoch seen at the end; while the epoch stands still
      the two reads agree. */
  method UpdateState(
      base: FaissState, rows: seq<StoredVector>, embeddings: map<string, string>,
      epoch: nat, epochAfter: nat, exact: bool, stableId: StableId, decode: Decode)
    returns (r: Refresh)
    requires base.Consistent() && base.Carried(decode)
    requires DistinctKeys(rows) && Injective(stableId)
    requires epochAfter == epoch ==> Unmoved(rows, embeddings)
    modifies base.index
    ensures r.NeedsRebuild? <==> RebuildRequired(base, rows, exact, stableId)
    ensures r.Raised? <==> !RebuildRequired(base, rows, exact, stableId) && epochAfter != epoch
    ensures r.NeedsRebuild? ==> base.index.entries == old(base.index.entries)
    ensures r.Updated? ==>
      && fresh(r.state) && r.state.index == base.index && r.state.epoch == epoch && !r.state.fromDisk
      && MatchesStore(r.state, rows, stableId, decode)
    ensures r.Updated? ==>
      var live := LiveRevisions(rows, stableId);
      var dead := Tombstones(base.revisions.value, live);
      && r.state.revisions == Some(live + dead) && r.state.Consistent()
      && |r.state.index.entries| == |rows| + |dead| && 4 * |dead| <= |r.state.index.entries|
  {
    var classified := Classify(base, rows, exact, stableId, decode);
    if classified.None? {
      return NeedsRebuild;
    }
    var plan, resident := classified.value, base.revisions.value;
    ghost var dead := Tombstones(resident, plan.live);
    PlanFits(base.index.entries, resident, rows, embeddings, stableId);
    if |base.index.entries| != |resident| {
      return Raised;
    }
    var removed := base.index.RemoveIds(plan.replaced);
    if removed != |plan.replaced| {
      return Raised;
    }
    var added := AddPending(base.index, plan.pending, embeddings, stableId);
    if added != |plan.pending| {
      return Raised;
    }
    if epochAfter != epoch {
      return Raised;
    }
    var revisions := plan.live + Tombstones(resident, plan.live);
    LiveRevisionsOf(rows, stableId);
    assert revisions.Keys == plan.live.Keys + dead.Keys && plan.live.Keys !! dead.Keys;
    assert |revisions| == |plan.live| + |dead|;
    ContentsCardinality(base.index.entries);
    if |base.index.entries| != |revisions| {
      return Raised;
    }
    ActiveIdsOf(rows, stableId, decode);
    var state := new FaissState(
      base.index, epoch, plan.ids, plan.keys, plan.candidates, plan.fingerprints,
      ActiveIds(plan.ids, plan.keys, plan.candidates), Some(revisions), false);
    return Updated(state);
  }

  /** What the plan does to an index that its revisions describe. */
  lemma PlanFits(
      entries: seq<Entry>, resident: map<int, string>, rows: seq<StoredVector>, embeddings: map<string, string>,
      stableId: StableId)
    requires Describes(resident, entries)
    requires DistinctKeys(rows) && AllRevisioned(rows) && Injective(stableId)
    ensures
      var replaced, pending := ReplacedOf(resident, rows, stableId), PendingOf(resident, rows, stableId);
      && |entries| == |resident|
      && |entries| - |Without(entries, replaced)| == |replaced|
      && Describes(resident - replaced, Without(entries, replaced))
      && DistinctKeys(pending) && AllRevisioned(pending)
      && (Unmoved(rows, embeddings) ==> Unmoved(pending, embeddings))
      && (forall r <- pending :: stableId(r.key) !in resident - replaced)
      && (resident - replaced) + LiveRevisions(pending, stableId)
        == LiveRevisions(rows, stableId) + Tombstones(resident, LiveRevisions(rows, stableId))
  {
    var replaced := ReplacedOf(resident, rows, stableId);
    PendingMembers(resident, rows, stableId);
    DiffContents(resident, rows, stableId);
    WithoutContents(entries, replaced);
    WithoutDistinct(entries, replaced);
    ContentsCardinality(entries);
    ContentsCardinality(Without(entries, replaced));
    MapWithoutCardinality(resident, replaced);
  }

  // ----- The rebuild -----

  /** One row of a rebuild: its vector joins the index, and its revision, if it has one, the tracked revisions. */
  method IndexRow(index: ResidentIndex, tracked: Option<map<int, string>>,
                  ghost seen: seq<StoredVector>, row: StoredVector, stableId: StableId)
    returns (revisions: Option<map<int, string>>)
    requires DistinctKeys(seen + [row]) && Injective(stableId)
    requires tracked.Some? <==> AllRevisioned(seen)
    requires tracked.Some? ==> tracked.value == LiveRevisions(seen, stableId) && Describes(tracked.value, index.entries)
    modifies index
    ensures |index.entries| == |old(index.entries)| + 1
    ensures revisions.Some? <==> AllRevisioned(seen + [row])
    ensures revisions.Some? ==>
      revisions.value == LiveRevisions(seen + [row], stableId) && Describes(revisions.value, index.entries)
  {
    var id := stableId(row.key);
    if tracked.Some? && row.Revisioned() {
      assert AllRevisioned(seen + [row]);
      assert map[] + tracked.value == tracked.value;
      AddOne(map[], index.entries, seen, row, stableId);
      OneMoreLive(seen, row, stableId);
      assert map[] + LiveRevisions(seen + [row], stableId) == LiveRevisions(seen + [row], stableId);
    } else {
      assert row in seen + [row];
      assert forall r <- seen :: r in seen + [row];
    }
    index.AddWithIds([Entry(id, if row.revision.Some? then row.revision.value else "")]);
    if tracked.Some? && row.Revisioned() {
      revisions := Some(tracked.value[id := row.revision.value]);
    } else {
      revisions := None;
    }
  }

  /** `_build_state`: a fresh index over one read of the rows. Revisions are dropped altogether once one row
      has none. */
  method BuildState(rows: seq<StoredVector>, epoch: nat, stableId: StableId, decode: Decode)
    returns (state: FaissState)
    requires DistinctKeys(rows) && Injective(stableId)
    ensures fresh(state) && fresh(state.index) && state.epoch == epoch && !state.fromDisk
    ensures MatchesStore(state, rows, stableId, decode)
    ensures state.revisions.Some? <==> AllRevisioned(rows)
    ensures state.revisions.Some? ==> state.revisions.value == LiveRevisions(rows, stableId)
    ensures state.Consistent()
    ensures |state.index.entries| == |rows|
  {
    var index := new ResidentIndex([]);
    var ids, keys := [], [];
    var candidates, fingerprints := map[], map[];
    var revisions: Option<map<int, string>> := Some(map[]);
    for i := 0 to |rows|
      invariant fresh(index) && |index.entries| == i
      invariant ids == IdsOf(rows[..i], stableId) && keys == KeysOf(rows[..i])
      invariant candidates == CandidatesOf(rows[..i], decode)
      invariant fingerprints == FingerprintsOf(rows[..i])
      invariant revisions.Some? <==> AllRevisioned(rows[..i])
      invariant revisions.Some? ==> revisions.value == LiveRevisions(rows[..i], stableId)
      invariant revisions.Some? ==> Describes(revisions.value, index.entries)
    {
      var row := rows[i];
      ghost var seen := rows[..i];
      assert rows[..i + 1] == seen + [row];
      OneMoreStored(seen, row, stableId, decode);
      revisions := IndexRow(index, revisions, seen, row, stableId);
      ids, keys := ids + [stableId(row.key)], keys + [row.key];
      fingerprints := fingerprints[row.key := row.columns];
      candidates := candidates[row.key := CandidateOf(row.columns, decode)];
    }
    assert rows[..|rows|] == rows;
    ActiveIdsOf(rows, stableId, decode);
    state := new FaissState(
      index, epoch, ids, keys, candidates, fingerprints, ActiveIds(ids, keys, candidates), revisions, false);
  }

  /** The diff refines the rebuild: on the rows of an unmoved store, a state the diff produced and a freshly built
      one agree on identifiers, keys, candidates and active identifiers, and every live identifier holds the same
      vector in both indexes. */
  lemma DiffRefinesRebuild(
      updated: FaissState, built: FaissState, resident: map<int, string>, rows: seq<StoredVector>,
      stableId: StableId, decode: Decode)
    requires DistinctKeys(rows) && AllRevisioned(rows) && Injective(stableId)
    requires MatchesStore(updated, rows, stableId, decode) && MatchesStore(built, rows, stableId, decode)
    requires updated.Consistent() && built.Consistent()
    requires updated.revisions
      == Some(LiveRevisions(rows, stableId) + Tombstones(resident, LiveRevisions(rows, stableId)))
    requires built.revisions == Some(LiveRevisions(rows, stableId))
    ensures updated.ids == built.ids && updated.keys == built.keys
    ensures updated.candidates == built.candidates && updated.active == built.active
    ensures forall id <- built.ids ::
      && id in Contents(updated.index.entries) && id in Contents(built.index.entries)
      && Contents(updated.index.entries)[id] == Contents(built.index.entries)[id]
    ensures |updated.index.entries| - |built.index.entries| == |Tombstones(resident, LiveRevisions(rows, stableId))|
  {
    LiveRevisionsOf(rows, stableId);
    var live := LiveRevisions(rows, stableId);
    var dead := Tombstones(resident, live);
    forall id | id in built.ids
      ensures id in live && id !in dead
    {
      var i :| 0 <= i < |rows| && stableId(rows[i].key) == id;
      assert rows[i] in rows;
    }
    ContentsCardinality(updated.index.entries);
    ContentsCardinality(built.index.entries);
    assert (live + dead).Keys == live.Keys + dead.Keys && live.Keys !! dead.Keys;
  }
}
