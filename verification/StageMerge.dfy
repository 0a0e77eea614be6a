/** Two-stage record ingestion (searchkernel/ingestion/records.py): records are expanded into chunks, a keyword and a
    semantic stage report on the expanded batch, and the reports are collapsed and merged into one outcome for each
    source record. Storage keys determine identities, so identities stand for them. */
module StageMerge {
  import opened Base
  import Ingest

  type Status = Ingest.Status

  datatype Identity = Identity(workspace: Option<string>, kind: string, id: string)

  /** A record; `parent` is the entry `_chunk_parent_storage_key` of its metadata. */
  datatype Record = Record(identity: Identity, parent: Option<Identity>)
  {
    /** The source record an outcome of this record is attributed to. */
    function Attribution(): Identity { if parent.Some? then parent.value else identity }
  }

  datatype StageResult = StageResult(identity: Identity, status: Status)

  // ----- Expansion -----

  /** The ids of the chunks a record is cut into; without a chunker there are none. */
  type Chunker = Option<Record -> seq<string>>

  function ChunkRecord(r: Record, chunk: string): Record {
    Record(r.identity.(id := r.identity.id + "#chunk:" + chunk), Some(r.identity))
  }

  function Block(r: Record, chunker: Chunker): (b: seq<Record>)
    ensures b != [] && b[0] == r && forall j :: 1 <= j < |b| ==> b[j].Attribution() == r.identity
  {
    if chunker.None? then [r]
    else
      var ids := chunker.value(r);
      [r] + seq(|ids|, j requires 0 <= j < |ids| => ChunkRecord(r, ids[j]))
  }

  function Expand(records: seq<Record>, chunker: Chunker): seq<Record> {
    if records == [] then [] else Expand(records[..|records| - 1], chunker) + Block(records[|records| - 1], chunker)
  }

  method ExpandRecords(records: seq<Record>, chunker: Chunker) returns (expanded: seq<Record>)
    ensures expanded == Expand(records, chunker)
  {
    expanded := [];
    var i := 0;
    while i < |records|
      invariant 0 <= i <= |records| && expanded == Expand(records[..i], chunker)
    {
      ExpandNext(records, chunker, i);
      expanded := expanded + Block(records[i], chunker);
      i := i + 1;
    }
    assert records[..i] == records;
  }

  lemma ExpandNext(records: seq<Record>, chunker: Chunker, i: nat)
    requires i < |records|
    ensures Expand(records[..i + 1], chunker) == Expand(records[..i], chunker) + Block(records[i], chunker)
  {
    assert records[..i + 1][..i] == records[..i];
  }

  /** Where the block of record i starts in the expanded batch. */
  function Start(records: seq<Record>, chunker: Chunker, i: nat): nat
    requires i <= |records|
  {
    |Expand(records[..i], chunker)|
  }

  lemma {:induction false} ExpandPrefix(records: seq<Record>, chunker: Chunker, i: nat)
    requires i <= |records|
    ensures Expand(records[..i], chunker) <= Expand(records, chunker)
    decreases |records| - i
  {
    if i == |records| {
      assert records[..i] == records;
    } else {
      ExpandPrefix(records, chunker, i + 1);
      assert records[..i + 1][..i] == records[..i];
    }
  }

  /** Record i and its chunks stand at positions Start(i) to Start(i + 1). */
  lemma BlockAt(records: seq<Record>, chunker: Chunker, i: nat)
    requires i < |records|
    ensures Start(records, chunker, i) < Start(records, chunker, i + 1) <= |Expand(records, chunker)|
    ensures Expand(records, chunker)[Start(records, chunker, i)..Start(records, chunker, i + 1)]
      == Block(records[i], chunker)
  {
    ExpandPrefix(records, chunker, i + 1);
    assert records[..i + 1][..i] == records[..i];
    SliceOfPrefix(Expand(records, chunker), Expand(records[..i], chunker), Block(records[i], chunker));
  }

  lemma SliceOfPrefix<T>(all: seq<T>, a: seq<T>, b: seq<T>)
    requires a + b <= all
    ensures all[|a|..|a + b|] == b
  {
    assert all[..|a + b|] == a + b;
  }

  lemma StartsAscend(records: seq<Record>, chunker: Chunker, i: nat, j: nat)
    requires i <= j <= |records|
    ensures Start(records, chunker, i) <= Start(records, chunker, j) <= |Expand(records, chunker)|
  {
    ExpandPrefix(records, chunker, j);
    assert records[..j][..i] == records[..i];
    ExpandPrefix(records[..j], chunker, i);
  }

  /** Every position of the expanded batch belongs to one record. */
  lemma {:induction false} OwnerOf(records: seq<Record>, chunker: Chunker, p: nat) returns (m: nat)
    requires p < |Expand(records, chunker)|
    ensures m < |records| && Start(records, chunker, m) <= p < Start(records, chunker, m + 1)
    decreases |records|
  {
    var n := |records| - 1;
    assert records[..n + 1] == records;
    if p < |Expand(records[..n], chunker)| {
      m := OwnerOf(records[..n], chunker, p);
      assert records[..n][..m] == records[..m] && records[..n][..m + 1] == records[..m + 1];
    } else {
      m := n;
    }
  }

  // ----- The stages -----

  /** What a stage reports when it handles records one at a time: one outcome each, in order, and in strict mode nothing
      after the first failure. */
  ghost predicate Reports(outcomes: seq<StageResult>, records: seq<Record>, ok: seq<bool>, strict: bool)
    requires |ok| == |records|
  {
    && |outcomes| <= |records|
    && (forall j :: 0 <= j < |outcomes| ==>
          outcomes[j] == StageResult(records[j].identity, if ok[j] then Ingest.Committed else Ingest.Failed))
    && (forall j :: 0 <= j < |outcomes| - 1 && strict ==> ok[j])
    && (|outcomes| < |records| ==> strict && outcomes != [] && !ok[|outcomes| - 1])
  }

  /** `_index_keyword_records_individually`, `_index_semantic_records_individually` and
      `_index_vector_records_individually`, which differ only in what they attempt for a record. */
  method IndexIndividually(records: seq<Record>, ok: seq<bool>, strict: bool) returns (outcomes: seq<StageResult>)
    requires |ok| == |records|
    ensures Reports(outcomes, records, ok, strict)
  {
    outcomes := [];
    var i := 0;
    while i < |records|
      invariant 0 <= i == |outcomes| <= |records|
      invariant forall j :: 0 <= j < i ==>
        outcomes[j] == StageResult(records[j].identity, if ok[j] then Ingest.Committed else Ingest.Failed)
      invariant forall j :: 0 <= j < i && strict ==> ok[j]
    {
      if !ok[i] {
        outcomes := outcomes + [StageResult(records[i].identity, Ingest.Failed)];
        if strict {
          break;
        }
      } else {
        outcomes := outcomes + [StageResult(records[i].identity, Ingest.Committed)];
      }
      i := i + 1;
    }
  }

  function AllCommitted(records: seq<Record>): seq<StageResult> {
    seq(|records|, i requires 0 <= i < |records| => StageResult(records[i].identity, Ingest.Committed))
  }

  function Every(n: nat): (r: seq<bool>)
    ensures |r| == n && forall j :: 0 <= j < n ==> r[j]
  {
    seq(n, _ => true)
  }

  /** Which records the keyword store took: all of them in one batch, or each on its own. */
  function KeywordTook(n: nat, batch: bool, single: seq<bool>): (r: seq<bool>)
    requires |single| == n
    ensures |r| == n
  {
    if batch then Every(n) else single
  }

  method IndexKeywordStage(records: seq<Record>, batch: bool, single: seq<bool>, strict: bool)
      returns (outcomes: seq<StageResult>)
    requires |single| == |records|
    ensures Reports(outcomes, records, KeywordTook(|records|, batch, single), strict)
  {
    if batch {
      outcomes := AllCommitted(records);
    } else {
      outcomes := IndexIndividually(records, single, strict);
    }
  }

  /** Which records were embedded and stored: if the batch was embedded, in one write or each on its own; otherwise
      each was embedded and stored on its own. */
  function SemanticTook(n: nat, embedded: bool, both: seq<bool>, batch: bool, single: seq<bool>): (r: seq<bool>)
    requires |both| == |single| == n
    ensures |r| == n
  {
    if !embedded then both else if batch then Every(n) else single
  }

  method IndexSemanticStage(
      records: seq<Record>, embedded: bool, both: seq<bool>, batch: bool, single: seq<bool>, strict: bool)
      returns (outcomes: seq<StageResult>)
    requires |both| == |single| == |records|
    ensures Reports(outcomes, records, SemanticTook(|records|, embedded, both, batch, single), strict)
  {
    if !embedded {
      outcomes := IndexIndividually(records, both, strict);
    } else if batch {
      outcomes := AllCommitted(records);
    } else {
      outcomes := IndexIndividually(records, single, strict);
    }
  }

  // ----- Collapsing chunks onto their records -----

  /** Some outcome is attributed to this identity, and none of those attributed to it is a failure. */
  ghost predicate Confirmed(indexed: seq<Record>, outcomes: seq<StageResult>, id: Identity)
    requires |outcomes| <= |indexed|
  {
    && (exists j :: 0 <= j < |outcomes| && indexed[j].Attribution() == id)
    && (forall j :: 0 <= j < |outcomes| && indexed[j].Attribution() == id ==> outcomes[j].status.Successful())
  }

  /** The outcomes attributed to an identity, in order. */
  function Related(indexed: seq<Record>, outcomes: seq<StageResult>, id: Identity): seq<StageResult>
    requires |outcomes| <= |indexed|
  {
    if outcomes == [] then []
    else
      var n := |outcomes| - 1;
      var before := Related(indexed, outcomes[..n], id);
      if indexed[n].Attribution() == id then before + [outcomes[n]] else before
  }

  predicate AllSuccessful(results: seq<StageResult>) {
    forall j :: 0 <= j < |results| ==> results[j].status.Successful()
  }

  lemma {:induction false} RelatedConfirms(indexed: seq<Record>, outcomes: seq<StageResult>, id: Identity)
    requires |outcomes| <= |indexed|
    ensures Confirmed(indexed, outcomes, id)
      <==> Related(indexed, outcomes, id) != [] && AllSuccessful(Related(indexed, outcomes, id))
    ensures Related(indexed, outcomes, id) == []
      <==> forall j :: 0 <= j < |outcomes| ==> indexed[j].Attribution() != id
  {
    if outcomes != [] {
      var n := |outcomes| - 1;
      var before, related := Related(indexed, outcomes[..n], id), Related(indexed, outcomes, id);
      RelatedConfirms(indexed, outcomes[..n], id);
      assert outcomes == outcomes[..n] + [outcomes[n]];
      if indexed[n].Attribution() == id {
        assert related == before + [outcomes[n]];
        assert forall j | 0 <= j < |before| :: related[j] == before[j];
        assert related[|before|] == outcomes[n];
      }
    }
  }

  method CollapseOutcomes(sources: seq<Record>, indexed: seq<Record>, outcomes: seq<StageResult>)
      returns (collapsed: seq<StageResult>)
    requires |outcomes| <= |indexed|
    ensures |collapsed| == |sources|
    ensures forall i :: 0 <= i < |sources| ==>
      && collapsed[i].identity == sources[i].identity
      && collapsed[i].status
         == if Confirmed(indexed, outcomes, sources[i].identity) then Ingest.Committed else Ingest.Failed
  {
    var byParent: map<Identity, seq<StageResult>> := map r | r in sources :: r.identity := [];
    var j := 0;
    while j < |outcomes|
      invariant 0 <= j <= |outcomes|
      invariant forall i :: 0 <= i < |sources| ==> sources[i].identity in byParent
      invariant forall id :: id in byParent ==> byParent[id] == Related(indexed, outcomes[..j], id)
      invariant forall id :: id !in byParent ==> Related(indexed, outcomes[..j], id) == []
    {
      assert outcomes[..j + 1][..j] == outcomes[..j];
      var parent := indexed[j].Attribution();
      var related := if parent in byParent then byParent[parent] else [];
      byParent := byParent[parent := related + [outcomes[j]]];
      j := j + 1;
    }
    assert outcomes[..j] == outcomes;
    collapsed := [];
    var i := 0;
    while i < |sources|
      invariant 0 <= i == |collapsed| <= |sources|
      invariant forall m :: 0 <= m < i ==>
        && collapsed[m].identity == sources[m].identity
        && collapsed[m].status
           == if Confirmed(indexed, outcomes, sources[m].identity) then Ingest.Committed else Ingest.Failed
    {
      var id := sources[i].identity;
      var related := byParent[id];
      RelatedConfirms(indexed, outcomes, id);
      collapsed := collapsed + [
        StageResult(id, if related != [] && AllSuccessful(related) then Ingest.Committed else Ingest.Failed)];
      i := i + 1;
    }
  }

  // ----- Merging the stages -----

  /** `{key(result): result for result in results}.get(id)`. */
  function LastOf(results: seq<StageResult>, id: Identity): (r: Option<StageResult>)
    ensures r.Some? ==> r.value in results && r.value.identity == id
    ensures r.None? ==> forall j :: 0 <= j < |results| ==> results[j].identity != id
  {
    if results == [] then None
    else if results[|results| - 1].identity == id then Some(results[|results| - 1])
    else
      var n := |results| - 1;
      assert results == results[..n] + [results[n]];
      LastOf(results[..n], id)
  }

  predicate Succeeded(results: seq<StageResult>, id: Identity) {
    LastOf(results, id).Some? && LastOf(results, id).value.status.Successful()
  }

  /** What the merge makes of each record: committed if both stages succeeded for it, failed otherwise, and in strict
      mode nothing after the first failure. */
  ghost predicate Merges(merged: seq<StageResult>, records: seq<Record>, both: Identity -> bool, strict: bool) {
    && |merged| <= |records|
    && (forall i :: 0 <= i < |merged| ==>
          merged[i] == StageResult(
            records[i].identity, if both(records[i].identity) then Ingest.Committed else Ingest.Failed))
    && (forall i :: 0 <= i < |merged| - 1 && strict ==> both(records[i].identity))
    && (|merged| < |records| ==> strict && merged != [] && !both(records[|merged| - 1].identity))
  }

  method MergeStageOutcomes(
      records: seq<Record>, keyword: seq<StageResult>, semantic: seq<StageResult>, strict: bool)
      returns (merged: seq<StageResult>)
    ensures Merges(merged, records, id => Succeeded(keyword, id) && Succeeded(semantic, id), strict)
  {
    merged := [];
    var i := 0;
    while i < |records|
      invariant 0 <= i == |merged| <= |records|
      invariant forall m :: 0 <= m < i ==>
        merged[m] == StageResult(
          records[m].identity,
          if Succeeded(keyword, records[m].identity) && Succeeded(semantic, records[m].identity)
          then Ingest.Committed else Ingest.Failed)
      invariant forall m :: 0 <= m < i && strict ==>
        Succeeded(keyword, records[m].identity) && Succeeded(semantic, records[m].identity)
    {
      var id := records[i].identity;
      if !Succeeded(keyword, id) || !Succeeded(semantic, id) {
        merged := merged + [StageResult(id, Ingest.Failed)];
        if strict {
          break;
        }
      } else {
        merged := merged + [StageResult(id, Ingest.Committed)];
      }
      i := i + 1;
    }
  }

  // ----- What a committed outcome means -----

  /** A stage succeeded for record i and all of its chunks. */
  ghost predicate BlockTaken(records: seq<Record>, chunker: Chunker, ok: seq<bool>, i: nat)
    requires i < |records| && |ok| == |Expand(records, chunker)|
  {
    forall j :: Start(records, chunker, i) <= j < Start(records, chunker, i + 1) && j < |ok| ==> ok[j]
  }

  /** No source record claims to be a chunk of another. */
  predicate OwnParents(records: seq<Record>) {
    forall i :: 0 <= i < |records| ==> records[i].Attribution() == records[i].identity
  }

  ghost predicate DistinctIdentities(records: seq<Record>) {
    forall i, j :: 0 <= i < j < |records| ==> records[i].identity != records[j].identity
  }

  lemma OwnAttribution(records: seq<Record>, chunker: Chunker, i: nat, j: nat)
    requires i < |records| && Start(records, chunker, i) <= j < Start(records, chunker, i + 1)
    ensures j < |Expand(records, chunker)|
    ensures j > Start(records, chunker, i) ==> Expand(records, chunker)[j].Attribution() == records[i].identity
    ensures j == Start(records, chunker, i) ==> Expand(records, chunker)[j] == records[i]
  {
    BlockAt(records, chunker, i);
    var start, end := Start(records, chunker, i), Start(records, chunker, i + 1);
    assert Expand(records, chunker)[j] == Expand(records, chunker)[start..end][j - start];
  }

  /** A report that was cut short ends with a failure, and that failure belongs to some record that is not confirmed. */
  lemma CutBehindConfirmed(
      records: seq<Record>, chunker: Chunker, ok: seq<bool>, outcomes: seq<StageResult>, i: nat)
    requires OwnParents(records) && i < |records| && |ok| == |Expand(records, chunker)|
    requires Reports(outcomes, Expand(records, chunker), ok, true) && |outcomes| < |ok|
    requires forall m :: 0 <= m <= i ==> Confirmed(Expand(records, chunker), outcomes, records[m].identity)
    ensures Start(records, chunker, i + 1) < |outcomes|
  {
    var all, p := Expand(records, chunker), |outcomes| - 1;
    var m := OwnerOf(records, chunker, p);
    OwnAttribution(records, chunker, m, p);
    assert all[p].Attribution() == records[m].identity && !outcomes[p].status.Successful();
    assert m > i;
    StartsAscend(records, chunker, i + 1, m);
  }

  /** If a stage confirmed a record and, in strict mode, every record before it, then it took the record and all of its
      chunks. */
  lemma ConfirmedMeansTaken(
      records: seq<Record>, chunker: Chunker, ok: seq<bool>, outcomes: seq<StageResult>, strict: bool, i: nat)
    requires OwnParents(records) && i < |records| && |ok| == |Expand(records, chunker)|
    requires Reports(outcomes, Expand(records, chunker), ok, strict)
    requires Confirmed(Expand(records, chunker), outcomes, records[i].identity)
    requires strict ==> forall m :: 0 <= m < i ==> Confirmed(Expand(records, chunker), outcomes, records[m].identity)
    ensures BlockTaken(records, chunker, ok, i)
  {
    BlockAt(records, chunker, i);
    if |outcomes| < |ok| {
      CutBehindConfirmed(records, chunker, ok, outcomes, i);
    }
    forall j | Start(records, chunker, i) <= j < Start(records, chunker, i + 1) ensures ok[j] {
      OwnAttribution(records, chunker, i, j);
      assert outcomes[j].status.Successful();
    }
  }

  /** If a stage took a record with all its chunks and, in strict mode, everything before, it confirms the record. */
  lemma TakenMeansConfirmed(
      records: seq<Record>, chunker: Chunker, ok: seq<bool>, outcomes: seq<StageResult>, strict: bool, i: nat)
    requires OwnParents(records) && DistinctIdentities(records) && i < |records| && |ok| == |Expand(records, chunker)|
    requires Reports(outcomes, Expand(records, chunker), ok, strict)
    requires BlockTaken(records, chunker, ok, i)
    requires strict ==> forall m :: 0 <= m < i ==> BlockTaken(records, chunker, ok, m)
    ensures Confirmed(Expand(records, chunker), outcomes, records[i].identity)
  {
    var all, start := Expand(records, chunker), Start(records, chunker, i);
    BlockAt(records, chunker, i);
    OwnAttribution(records, chunker, i, start);
    if |outcomes| < |all| {
      var p := |outcomes| - 1;
      var m := OwnerOf(records, chunker, p);
      assert m <= i ==> BlockTaken(records, chunker, ok, m);
      assert m > i;
      StartsAscend(records, chunker, i + 1, m);
    }
    forall j | 0 <= j < |outcomes| && all[j].Attribution() == records[i].identity
      ensures outcomes[j].status.Successful()
    {
      var m := OwnerOf(records, chunker, j);
      OwnAttribution(records, chunker, m, j);
      assert records[m].identity == records[i].identity;
    }
  }

  // ----- The whole batch -----

  /** How the stores and the encoder answer during one batch, by position in the expanded batch. */
  datatype Replies = Replies(
    keywordBatch: bool, keywordSingle: seq<bool>, embedded: bool, both: seq<bool>, vectorBatch: bool,
    vectorSingle: seq<bool>)
  {
    predicate Cover(n: nat) { |keywordSingle| == |both| == |vectorSingle| == n }

    function Keyword(): (ok: seq<bool>)
      ensures |ok| == |keywordSingle|
    {
      KeywordTook(|keywordSingle|, keywordBatch, keywordSingle)
    }

    function Semantic(): (ok: seq<bool>)
      requires |vectorSingle| == |both|
      ensures |ok| == |both|
    {
      SemanticTook(|both|, embedded, both, vectorBatch, vectorSingle)
    }
  }

  /** Both stages took record i and all of its chunks. */
  ghost predicate Taken(records: seq<Record>, chunker: Chunker, replies: Replies, i: nat)
    requires i < |records| && replies.Cover(|Expand(records, chunker)|)
  {
    BlockTaken(records, chunker, replies.Keyword(), i) && BlockTaken(records, chunker, replies.Semantic(), i)
  }

  ghost predicate TakenUpTo(records: seq<Record>, chunker: Chunker, replies: Replies, i: nat)
    requires i < |records| && replies.Cover(|Expand(records, chunker)|)
  {
    forall m :: 0 <= m <= i ==> Taken(records, chunker, replies, m)
  }

  lemma {:induction false} LastOfCollapsed(
      collapsed: seq<StageResult>, sources: seq<Record>, indexed: seq<Record>, outcomes: seq<StageResult>, i: nat)
    requires |outcomes| <= |indexed| && |collapsed| == |sources| && i < |sources|
    requires forall m :: 0 <= m < |sources| ==>
      && collapsed[m].identity == sources[m].identity
      && collapsed[m].status
         == if Confirmed(indexed, outcomes, sources[m].identity) then Ingest.Committed else Ingest.Failed
    ensures Succeeded(collapsed, sources[i].identity) <==> Confirmed(indexed, outcomes, sources[i].identity)
  {
    var last := LastOf(collapsed, sources[i].identity);
    assert last.Some?;
    var m :| 0 <= m < |collapsed| && collapsed[m] == last.value;
  }

  /** A merged outcome says exactly whether both stages confirmed its record. */
  ghost predicate SaysConfirmed(
      merged: seq<StageResult>, records: seq<Record>, indexed: seq<Record>, keyword: seq<StageResult>,
      semantic: seq<StageResult>, strict: bool)
    requires |keyword| <= |indexed| && |semantic| <= |indexed|
  {
    Merges(merged, records, id => Confirmed(indexed, keyword, id) && Confirmed(indexed, semantic, id), strict)
  }

  lemma CommittedMeansTaken(
      records: seq<Record>, chunker: Chunker, replies: Replies, keyword: seq<StageResult>, semantic: seq<StageResult>,
      merged: seq<StageResult>, strict: bool, i: nat)
    requires OwnParents(records) && replies.Cover(|Expand(records, chunker)|)
    requires Reports(keyword, Expand(records, chunker), replies.Keyword(), strict)
    requires Reports(semantic, Expand(records, chunker), replies.Semantic(), strict)
    requires SaysConfirmed(merged, records, Expand(records, chunker), keyword, semantic, strict)
    requires i < |merged| && merged[i].status.Committed?
    ensures Taken(records, chunker, replies, i)
  {
    ConfirmedMeansTaken(records, chunker, replies.Keyword(), keyword, strict, i);
    ConfirmedMeansTaken(records, chunker, replies.Semantic(), semantic, strict, i);
  }

  /** What the merge owes a batch: in strict mode the records up to the first that was not taken, else every one. */
  ghost predicate Owed(records: seq<Record>, chunker: Chunker, replies: Replies, strict: bool, i: nat)
    requires i < |records| && replies.Cover(|Expand(records, chunker)|)
  {
    if strict then TakenUpTo(records, chunker, replies, i) else Taken(records, chunker, replies, i)
  }

  lemma OwedMeansConfirmed(
      records: seq<Record>, chunker: Chunker, replies: Replies, keyword: seq<StageResult>, semantic: seq<StageResult>,
      strict: bool, i: nat)
    requires OwnParents(records) && DistinctIdentities(records) && replies.Cover(|Expand(records, chunker)|)
    requires Reports(keyword, Expand(records, chunker), replies.Keyword(), strict)
    requires Reports(semantic, Expand(records, chunker), replies.Semantic(), strict)
    requires i < |records| && Owed(records, chunker, replies, strict, i)
    ensures Confirmed(Expand(records, chunker), keyword, records[i].identity)
    ensures Confirmed(Expand(records, chunker), semantic, records[i].identity)
  {
    assert Taken(records, chunker, replies, i);
    if strict {
      forall m | 0 <= m < i
        ensures BlockTaken(records, chunker, replies.Keyword(), m)
        ensures BlockTaken(records, chunker, replies.Semantic(), m)
      {
        assert Taken(records, chunker, replies, m);
      }
    }
    TakenMeansConfirmed(records, chunker, replies.Keyword(), keyword, strict, i);
    TakenMeansConfirmed(records, chunker, replies.Semantic(), semantic, strict, i);
  }

  lemma TakenMeansCommitted(
      records: seq<Record>, chunker: Chunker, replies: Replies, keyword: seq<StageResult>, semantic: seq<StageResult>,
      merged: seq<StageResult>, strict: bool, i: nat)
    requires OwnParents(records) && DistinctIdentities(records) && replies.Cover(|Expand(records, chunker)|)
    requires Reports(keyword, Expand(records, chunker), replies.Keyword(), strict)
    requires Reports(semantic, Expand(records, chunker), replies.Semantic(), strict)
    requires SaysConfirmed(merged, records, Expand(records, chunker), keyword, semantic, strict)
    requires i < |records| && Owed(records, chunker, replies, strict, i)
    ensures i < |merged| && merged[i].status.Committed?
  {
    OwedMeansConfirmed(records, chunker, replies, keyword, semantic, strict, i);
    if |merged| <= i {
      var last := |merged| - 1;
      OwedMeansConfirmed(records, chunker, replies, keyword, semantic, strict, last);
    }
  }

  /** Outcome i concerns record i; it is committed only if both stages took the record and all of its chunks, and for
      distinct identities exactly then in lenient mode, and exactly for the longest such prefix in strict mode. */
  method IndexRecords(records: seq<Record>, chunker: Chunker, replies: Replies, strict: bool)
      returns (merged: seq<StageResult>)
    requires replies.Cover(|Expand(records, chunker)|)
    ensures |merged| <= |records|
    ensures forall i :: 0 <= i < |merged| ==>
      merged[i].identity == records[i].identity && merged[i].status in {Ingest.Committed, Ingest.Failed}
    ensures |merged| < |records| ==> strict && merged != [] && merged[|merged| - 1].status.Failed?
    ensures forall i :: 0 <= i < |merged| && strict && merged[i].status.Failed? ==> i == |merged| - 1
    ensures OwnParents(records) ==>
      forall i :: 0 <= i < |merged| && merged[i].status.Committed? ==> Taken(records, chunker, replies, i)
    ensures OwnParents(records) && DistinctIdentities(records) ==> forall i :: 0 <= i < |records| ==>
      (i < |merged| && merged[i].status.Committed? <==> Owed(records, chunker, replies, strict, i))
  {
    if records == [] {
      return [];
    }
    var keyword, semantic: seq<StageResult>;
    keyword, semantic, merged := RunStages(records, chunker, replies, strict);
    OutcomesAreExact(records, chunker, replies, keyword, semantic, merged, strict);
  }

  lemma OutcomesAreExact(
      records: seq<Record>, chunker: Chunker, replies: Replies, keyword: seq<StageResult>, semantic: seq<StageResult>,
      merged: seq<StageResult>, strict: bool)
    requires replies.Cover(|Expand(records, chunker)|)
    requires Reports(keyword, Expand(records, chunker), replies.Keyword(), strict)
    requires Reports(semantic, Expand(records, chunker), replies.Semantic(), strict)
    requires SaysConfirmed(merged, records, Expand(records, chunker), keyword, semantic, strict)
    ensures |merged| <= |records|
    ensures forall i :: 0 <= i < |merged| ==>
      merged[i].identity == records[i].identity && merged[i].status in {Ingest.Committed, Ingest.Failed}
    ensures |merged| < |records| ==> strict && merged != [] && merged[|merged| - 1].status.Failed?
    ensures forall i :: 0 <= i < |merged| && strict && merged[i].status.Failed? ==> i == |merged| - 1
    ensures OwnParents(records) ==>
      forall i :: 0 <= i < |merged| && merged[i].status.Committed? ==> Taken(records, chunker, replies, i)
    ensures OwnParents(records) && DistinctIdentities(records) ==> forall i :: 0 <= i < |records| ==>
      (i < |merged| && merged[i].status.Committed? <==> Owed(records, chunker, replies, strict, i))
  {
    if OwnParents(records) {
      forall i | 0 <= i < |merged| && merged[i].status.Committed?
        ensures Taken(records, chunker, replies, i) && Owed(records, chunker, replies, strict, i)
      {
        forall m | 0 <= m <= i && (strict || m == i) ensures Taken(records, chunker, replies, m) {
          CommittedMeansTaken(records, chunker, replies, keyword, semantic, merged, strict, m);
        }
      }
    }
    if OwnParents(records) && DistinctIdentities(records) {
      forall i | 0 <= i < |records| && Owed(records, chunker, replies, strict, i)
        ensures i < |merged| && merged[i].status.Committed?
      {
        TakenMeansCommitted(records, chunker, replies, keyword, semantic, merged, strict, i);
      }
    }
  }

  /** Expansion, both stages, collapse and merge. */
  method RunStages(records: seq<Record>, chunker: Chunker, replies: Replies, strict: bool)
      returns (keyword: seq<StageResult>, semantic: seq<StageResult>, merged: seq<StageResult>)
    requires replies.Cover(|Expand(records, chunker)|)
    ensures Reports(keyword, Expand(records, chunker), replies.Keyword(), strict)
    ensures Reports(semantic, Expand(records, chunker), replies.Semantic(), strict)
    ensures SaysConfirmed(merged, records, Expand(records, chunker), keyword, semantic, strict)
  {
    var indexed := ExpandRecords(records, chunker);
    keyword := IndexKeywordStage(indexed, replies.keywordBatch, replies.keywordSingle, strict);
    semantic := IndexSemanticStage(
      indexed, replies.embedded, replies.both, replies.vectorBatch, replies.vectorSingle, strict);
    var k := CollapseOutcomes(records, indexed, keyword);
    var s := CollapseOutcomes(records, indexed, semantic);
    forall i | 0 <= i < |records|
      ensures Succeeded(k, records[i].identity) <==> Confirmed(indexed, keyword, records[i].identity)
      ensures Succeeded(s, records[i].identity) <==> Confirmed(indexed, semantic, records[i].identity)
    {
      LastOfCollapsed(k, records, indexed, keyword, i);
      LastOfCollapsed(s, records, indexed, semantic, i);
    }
    merged := MergeStageOutcomes(records, k, s, strict);
  }

  // ----- Outcomes as the kernel sees them -----

  function ForKernel(merged: seq<StageResult>): (r: seq<Ingest.Outcome>)
    ensures |r| == |merged| && forall i :: 0 <= i < |r| ==> r[i] == Ingest.Outcome(merged[i].status, None)
  {
    seq(|merged|, i requires 0 <= i < |merged| => Ingest.Outcome(merged[i].status, None))
  }

  /** A batch as the kernel ingests it: one result for each record, successful exactly when the record was indexed
      completely, in strict mode only up to the first record that was not; what strict mode cut off counts as failed. */
  method IndexForKernel(
      src: Ingest.Source, from: nat, records: seq<Record>, chunker: Chunker, replies: Replies, strict: bool)
      returns (results: seq<Ingest.Outcome>)
    requires replies.Cover(|Expand(records, chunker)|)
    requires src.Lawful() && from + |records| <= |src.cursors|
    ensures |results| == |records|
    ensures forall i :: 0 <= i < |results| ==>
      results[i].status in {Ingest.Committed, Ingest.Failed} && src.at(results[i].cursor) == from + i + 1
    ensures OwnParents(records) ==>
      forall i :: 0 <= i < |results| && results[i].status.Successful() ==> Taken(records, chunker, replies, i)
    ensures OwnParents(records) && DistinctIdentities(records) ==> forall i :: 0 <= i < |results| ==>
      (results[i].status.Successful() <==> Owed(records, chunker, replies, strict, i))
  {
    var merged := IndexRecords(records, chunker, replies, strict);
    var normalized := Ingest.NormalizeResults(src, from, |records|, ForKernel(merged));
    results := normalized.value;
  }

  // ----- Records that carry a parent key of their own -----

  function FullReport(records: seq<Record>, ok: seq<bool>): (r: seq<StageResult>)
    requires |ok| == |records|
    ensures Reports(r, records, ok, false)
  {
    seq(|records|, i requires 0 <= i < |records| =>
      StageResult(records[i].identity, if ok[i] then Ingest.Committed else Ingest.Failed))
  }

  /** A stage's confirmation of record i is sound, whatever it took and rejected. */
  ghost predicate SoundFor(records: seq<Record>, chunker: Chunker, i: nat)
    requires i < |records|
  {
    var all := Expand(records, chunker);
    forall ok: seq<bool> :: |ok| == |all| && Confirmed(all, FullReport(all, ok), records[i].identity)
      ==> BlockTaken(records, chunker, ok, i)
  }

  /** For a record of a lenient batch that is so exactly when its own outcome is attributed to it, or nothing is. */
  lemma SoundExactlyWhen(records: seq<Record>, chunker: Chunker, i: nat)
    requires i < |records|
    ensures SoundFor(records, chunker, i)
      <==> records[i].Attribution() == records[i].identity
           || forall j :: 0 <= j < |Expand(records, chunker)|
                ==> Expand(records, chunker)[j].Attribution() != records[i].identity
  {
    var all := Expand(records, chunker);
    if records[i].Attribution() == records[i].identity {
      OwnOutcomeIsSound(records, chunker, i);
    } else if j :| 0 <= j < |all| && all[j].Attribution() == records[i].identity {
      OwnFailureIsHidden(records, chunker, i, j);
    }
  }

  lemma OwnOutcomeIsSound(records: seq<Record>, chunker: Chunker, i: nat)
    requires i < |records| && records[i].Attribution() == records[i].identity
    ensures SoundFor(records, chunker, i)
  {
    var all, start := Expand(records, chunker), Start(records, chunker, i);
    BlockAt(records, chunker, i);
    forall ok: seq<bool> | |ok| == |all| && Confirmed(all, FullReport(all, ok), records[i].identity)
      ensures BlockTaken(records, chunker, ok, i)
    {
      forall j | start <= j < Start(records, chunker, i + 1) && j < |ok| ensures ok[j] {
        OwnAttribution(records, chunker, i, j);
        assert FullReport(all, ok)[j].status.Successful();
      }
    }
  }

  /** Only the record itself is not taken, and it is confirmed. */
  lemma OwnFailureIsHidden(records: seq<Record>, chunker: Chunker, i: nat, j: nat)
    requires i < |records| && records[i].Attribution() != records[i].identity
    requires j < |Expand(records, chunker)| && Expand(records, chunker)[j].Attribution() == records[i].identity
    ensures !SoundFor(records, chunker, i)
  {
    var all, start := Expand(records, chunker), Start(records, chunker, i);
    BlockAt(records, chunker, i);
    OwnAttribution(records, chunker, i, start);
    var ok := seq(|all|, q => q != start);
    assert FullReport(all, ok)[j].status.Successful();
    assert Confirmed(all, FullReport(all, ok), records[i].identity);
    assert !BlockTaken(records, chunker, ok, i) by {
      assert !ok[start];
    }
  }

  /** The one strict report: up to the first failure. */
  function StrictReport(records: seq<Record>, ok: seq<bool>): (r: seq<StageResult>)
    requires |ok| == |records|
    ensures Reports(r, records, ok, true)
  {
    FullReport(records, ok)[..FirstFailure(ok)]
  }

  /** How many outcomes there are up to the first failure, itself included. */
  function FirstFailure(ok: seq<bool>): (n: nat)
    ensures n <= |ok| && (forall j :: 0 <= j < n - 1 ==> ok[j]) && (n < |ok| ==> n > 0 && !ok[n - 1])
  {
    if ok == [] then 0 else if !ok[0] then 1 else FirstFailure(ok[1..]) + 1
  }

  lemma FailsFirstAt(ok: seq<bool>, p: nat)
    requires p < |ok| && !ok[p] && forall j :: 0 <= j < p ==> ok[j]
    ensures FirstFailure(ok) == p + 1
  {
  }

  lemma FailsBy(ok: seq<bool>, j: nat)
    requires j < |ok| && !ok[j]
    ensures 0 < FirstFailure(ok) <= j + 1 && !ok[FirstFailure(ok) - 1]
  {
  }

  /** A failure at the end of a report is not charged to a record the report confirms. */
  lemma ConfirmedNotAt(indexed: seq<Record>, outcomes: seq<StageResult>, id: Identity, p: nat)
    requires |outcomes| == p + 1 <= |indexed| && Confirmed(indexed, outcomes, id) && outcomes[p].status.Failed?
    ensures indexed[p].Attribution() != id && AttributedBefore(indexed, id, p)
  {
    var q :| 0 <= q < |outcomes| && indexed[q].Attribution() == id;
    assert outcomes[q].status.Successful();
  }

  ghost predicate ConfirmedUpTo(
      records: seq<Record>, indexed: seq<Record>, outcomes: seq<StageResult>, i: nat)
    requires i < |records| && |outcomes| <= |indexed|
  {
    forall m :: 0 <= m <= i ==> Confirmed(indexed, outcomes, records[m].identity)
  }

  /** What a strict merge relies on is sound: if a stage confirms record i and all before it, it took record i. */
  ghost predicate StrictSoundFor(records: seq<Record>, chunker: Chunker, i: nat)
    requires i < |records|
  {
    var all := Expand(records, chunker);
    forall ok: seq<bool> :: |ok| == |all| && ConfirmedUpTo(records, all, StrictReport(all, ok), i)
      ==> BlockTaken(records, chunker, ok, i)
  }

  /** A failure at p would be charged to none of the first i + 1 records, although something has been attributed to each
      of them before. */
  ghost predicate Escapes(records: seq<Record>, indexed: seq<Record>, i: nat, p: nat)
    requires i < |records| && p < |indexed|
  {
    forall m :: 0 <= m <= i ==>
      indexed[p].Attribution() != records[m].identity && AttributedBefore(indexed, records[m].identity, p)
  }

  ghost predicate AttributedBefore(indexed: seq<Record>, id: Identity, p: nat)
    requires p <= |indexed|
  {
    exists j :: 0 <= j < p && indexed[j].Attribution() == id
  }

  /** For a record of a strict batch that is so exactly when no failure up to its last chunk escapes. */
  lemma StrictSoundExactlyWhen(records: seq<Record>, chunker: Chunker, i: nat)
    requires i < |records|
    ensures Start(records, chunker, i + 1) <= |Expand(records, chunker)|
    ensures StrictSoundFor(records, chunker, i)
      <==> forall p :: 0 <= p < Start(records, chunker, i + 1) ==> !Escapes(records, Expand(records, chunker), i, p)
  {
    var all, end := Expand(records, chunker), Start(records, chunker, i + 1);
    BlockAt(records, chunker, i);
    if forall p :: 0 <= p < end ==> !Escapes(records, all, i, p) {
      forall ok: seq<bool> | |ok| == |all| && ConfirmedUpTo(records, all, StrictReport(all, ok), i)
        ensures BlockTaken(records, chunker, ok, i)
      {
        FailureEscapes(records, chunker, i, ok);
      }
    } else {
      var p :| 0 <= p < end && Escapes(records, all, i, p);
      EscapeConfirms(records, chunker, i, p);
    }
  }

  /** If the first failure lies before the end of block i, it escapes. */
  lemma FailureEscapes(records: seq<Record>, chunker: Chunker, i: nat, ok: seq<bool>)
    requires i < |records| && |ok| == |Expand(records, chunker)|
    requires ConfirmedUpTo(records, Expand(records, chunker), StrictReport(Expand(records, chunker), ok), i)
    ensures
      var p := FirstFailure(ok) - 1;
      BlockTaken(records, chunker, ok, i)
      || (0 <= p < Start(records, chunker, i + 1) && p < |ok| && Escapes(records, Expand(records, chunker), i, p))
  {
    var all, report := Expand(records, chunker), StrictReport(Expand(records, chunker), ok);
    var p := |report| - 1;
    if !BlockTaken(records, chunker, ok, i) {
      var j :| Start(records, chunker, i) <= j < Start(records, chunker, i + 1) && j < |ok| && !ok[j];
      FailsBy(ok, j);
      LastFailureEscapes(records, all, report, i, p);
    }
  }

  lemma LastFailureEscapes(records: seq<Record>, indexed: seq<Record>, outcomes: seq<StageResult>, i: nat, p: nat)
    requires i < |records| && |outcomes| == p + 1 <= |indexed| && outcomes[p].status.Failed?
    requires ConfirmedUpTo(records, indexed, outcomes, i)
    ensures Escapes(records, indexed, i, p)
  {
    forall m | 0 <= m <= i
      ensures indexed[p].Attribution() != records[m].identity && AttributedBefore(indexed, records[m].identity, p)
    {
      ConfirmedNotAt(indexed, outcomes, records[m].identity, p);
    }
  }

  lemma AttributedIsConfirmed(indexed: seq<Record>, outcomes: seq<StageResult>, id: Identity, p: nat)
    requires |outcomes| == p + 1 <= |indexed| && indexed[p].Attribution() != id && AttributedBefore(indexed, id, p)
    requires forall j :: 0 <= j < p ==> outcomes[j].status.Successful()
    ensures Confirmed(indexed, outcomes, id)
  {
    var q :| 0 <= q < p && indexed[q].Attribution() == id;
    assert q < |outcomes|;
  }

  lemma EscapeLeavesConfirmed(records: seq<Record>, indexed: seq<Record>, outcomes: seq<StageResult>, i: nat, p: nat)
    requires i < |records| && |outcomes| == p + 1 <= |indexed| && Escapes(records, indexed, i, p)
    requires forall j :: 0 <= j < p ==> outcomes[j].status.Successful()
    ensures ConfirmedUpTo(records, indexed, outcomes, i)
  {
    forall m | 0 <= m <= i ensures Confirmed(indexed, outcomes, records[m].identity) {
      AttributedIsConfirmed(indexed, outcomes, records[m].identity, p);
    }
  }

  /** If everything before an escaping position succeeds and nothing from there on, all of the first i + 1 records are
      confirmed. */
  lemma EscapeConfirms(records: seq<Record>, chunker: Chunker, i: nat, p: nat)
    requires i < |records| && p < Start(records, chunker, i + 1) <= |Expand(records, chunker)|
    requires Escapes(records, Expand(records, chunker), i, p)
    ensures !StrictSoundFor(records, chunker, i)
  {
    var all, end := Expand(records, chunker), Start(records, chunker, i + 1);
    var ok := seq(|all|, j => j < p);
    var report := StrictReport(all, ok);
    FailsFirstAt(ok, p);
    EscapeLeavesConfirmed(records, all, report, i, p);
    BlockAt(records, chunker, i);
    assert !BlockTaken(records, chunker, ok, i) by {
      assert !ok[end - 1];
    }
  }

  /** A record that names another as its parent, in a batch with a chunker: its own failure is charged to the other, and
      it is reported committed because its chunk was indexed. */
  lemma ForeignParentHidesFailure()
    ensures
      var a, b := Identity(None, "note", "a"), Identity(None, "note", "b");
      var records := [Record(a, Some(b))];
      var chunker := Some((r: Record) => ["0"]);
      !SoundFor(records, chunker, 0)
  {
    var a, b := Identity(None, "note", "a"), Identity(None, "note", "b");
    assert a != b by { assert a.id[0] != b.id[0]; }
    var records := [Record(a, Some(b))];
    var chunker := Some((r: Record) => ["0"]);
    SoundExactlyWhen(records, chunker, 0);
    BlockAt(records, chunker, 0);
    assert records[..1] == records;
    assert |Block(records[0], chunker)| == 2;
    OwnAttribution(records, chunker, 0, Start(records, chunker, 0) + 1);
  }

  /** In a strict batch it takes two: the first record is charged to the second, its chunk to itself, and the second
      record's failure to a third. */
  lemma ForeignParentsHideStrictFailure()
    ensures
      var a, b, c := Identity(None, "note", "a"), Identity(None, "note", "b"), Identity(None, "note", "c");
      var records := [Record(a, Some(b)), Record(b, Some(c))];
      var chunker := Some((r: Record) => ["0"]);
      !StrictSoundFor(records, chunker, 1)
  {
    var a, b, c := Identity(None, "note", "a"), Identity(None, "note", "b"), Identity(None, "note", "c");
    assert a.id[0] != b.id[0] && a.id[0] != c.id[0] && b.id[0] != c.id[0];
    var records := [Record(a, Some(b)), Record(b, Some(c))];
    var chunker := Some((r: Record) => ["0"]);
    var all := Expand(records, chunker);
    assert records[..0] == [] && |Block(records[0], chunker)| == 2 && records[..1] == [records[0]];
    assert records[..1][..0] == [] && Expand(records[..1], chunker) == Block(records[0], chunker);
    assert all == Block(records[0], chunker) + Block(records[1], chunker);
    assert all[0].Attribution() == b && all[1].Attribution() == a && all[2].Attribution() == c;
    assert Start(records, chunker, 2) == |all| by {
      assert records[..2] == records;
    }
    assert AttributedBefore(all, a, 2) && AttributedBefore(all, b, 2);
    assert Escapes(records, all, 1, 2);
    StrictSoundExactlyWhen(records, chunker, 1);
  }
}
