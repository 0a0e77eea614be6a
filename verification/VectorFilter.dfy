/** Eligibility of stored vectors: the row predicate of searchkernel/domain/vector_filters.py and the
    column-wise filter of searchkernel/indices/local_vectors.py that has to agree with it. */
module VectorFilter {
  import opened Base

  // ----- Decoded record metadata -----

  /** A decoded JSON value. `repr` is what Python's `str` prints for a list, an object, a number or a boolean. */
  datatype Json =
    | Null
    | Text(text: string)
    | Items(items: seq<Json>, repr: string)
    | Other(repr: string)

  type Metadata = map<string, Json>

  function PyStr(v: Json): string {
    match v
    case Null => "None"
    case Text(t) => t
    case Items(_, r) => r
    case Other(r) => r
  }

  /** `metadata.get(name)`. */
  function Field(m: Metadata, name: string): Json {
    if name in m then m[name] else Null
  }

  /** What a filter may look at in one record besides its storage key. */
  datatype Attributes = Attributes(
    sourceId: string,
    workspaceId: Option<string>,
    sourceKind: string,
    status: string,
    metadata: Metadata,
    uri: Option<string>)

  // ----- Paths -----

  function LastIndex(s: string, c: char): (r: int)
    ensures -1 <= r < |s|
    ensures r >= 0 ==> s[r] == c
    ensures forall i :: r < i < |s| ==> s[i] != c
  {
    if s == [] then -1
    else if s[|s| - 1] == c then |s| - 1
    else LastIndex(s[..|s| - 1], c)
  }

  function ForwardSlashes(path: string): string {
    seq(|path|, i requires 0 <= i < |path| => if path[i] == '\\' then '/' else path[i])
  }

  /** The spellings under which a path may be named by a filter: whole, leaf, and both without extension. */
  function PathVariants(path: string): set<string> {
    var normalized := ForwardSlashes(path);
    var cut := LastIndex(normalized, '/');
    var leaf := normalized[cut + 1..];
    var dot := LastIndex(leaf, '.');
    if dot < 0 then {normalized, leaf}
    else
      var joined := if cut < 0 then leaf[..dot] else normalized[..cut] + "/" + leaf[..dot];
      {normalized, normalized[..|normalized| - (|leaf| - dot)], joined, leaf, leaf[..dot]}
  }

  function PathValues(a: Attributes): set<string> {
    var named := (name: string) => Field(a.metadata, name).Text? && Field(a.metadata, name).text != "";
    if named("file_path") then PathVariants(Field(a.metadata, "file_path").text)
    else if named("path") then PathVariants(Field(a.metadata, "path").text)
    else if named("source_file") then PathVariants(Field(a.metadata, "source_file").text)
    else if a.uri.Some? && a.uri.value != "" then PathVariants(a.uri.value)
    else {}
  }

  // ----- The row predicate -----

  datatype ScopedFilter = ScopedFilter(
    sourceKind: string,
    workspaceIds: Option<set<string>>,
    nonEmpty: seq<string>,
    containsAny: seq<(string, set<string>)>)
  {
    predicate Matches(workspaceId: Option<string>, metadata: Metadata) {
      && (workspaceIds.Some? ==> workspaceId.Some? && workspaceId.value in workspaceIds.value)
      && (forall name <- nonEmpty :: Field(metadata, name).Items? && Field(metadata, name).items != [])
      && (forall c <- containsAny ::
            && Field(metadata, c.0).Items?
            && exists v <- Field(metadata, c.0).items :: v.Text? && v.text in c.1)
    }
  }

  datatype CompiledFilter = CompiledFilter(
    statuses: set<string>,
    workspaceId: Option<string>,
    sourceKinds: Option<set<string>>,
    candidateKeys: Option<set<string>>,
    excludedKeys: Option<set<string>>,
    projectValues: Option<set<string>>,
    excludedProjects: Option<set<string>>,
    includedPaths: Option<set<string>>,
    excludedPaths: Option<set<string>>,
    documentValues: Option<set<string>>,
    excludedDocuments: Option<set<string>>,
    metadataEquals: Option<seq<(string, string)>>,
    metadataIn: Option<seq<(string, set<string>)>>,
    scoped: seq<ScopedFilter>)
  {
    predicate Typed() {
      || scoped != [] || projectValues.Some? || excludedProjects.Some? || includedPaths.Some?
      || excludedPaths.Some? || documentValues.Some? || excludedDocuments.Some?
    }

    predicate RequiresMetadata() {
      Typed() || metadataEquals.Some? || metadataIn.Some?
    }

    predicate ScalarsMatch(a: Attributes) {
      && a.status in statuses
      && (workspaceId.Some? ==> a.workspaceId == workspaceId)
      && (sourceKinds.Some? ==> a.sourceKind in sourceKinds.value)
    }

    predicate TypedMatch(a: Attributes) {
      var project := Field(a.metadata, "project_id");
      var paths := PathValues(a);
      var document := if "doc_id" in a.metadata then PyStr(a.metadata["doc_id"]) else a.sourceId;
      && (forall f <- scoped :: f.sourceKind == a.sourceKind ==> f.Matches(a.workspaceId, a.metadata))
      && (projectValues.Some? ==> PyStr(project) in projectValues.value)
      && (excludedProjects.Some? && !project.Null? ==> PyStr(project) !in excludedProjects.value)
      && (includedPaths.Some? ==> paths * includedPaths.value != {})
      && (excludedPaths.Some? ==> paths * excludedPaths.value == {})
      && (documentValues.Some? ==> document in documentValues.value)
      && (excludedDocuments.Some? ==> document !in excludedDocuments.value && a.sourceId !in excludedDocuments.value)
    }

    predicate EqualsMatch(m: Metadata) {
      metadataEquals.Some? ==> forall e <- metadataEquals.value :: PyStr(Field(m, e.0)) == e.1
    }

    predicate InMatch(m: Metadata) {
      metadataIn.Some? ==> forall e <- metadataIn.value :: PyStr(Field(m, e.0)) in e.1
    }

    /** `CompiledVectorFilter.matches`. */
    predicate Matches(key: string, a: Attributes) {
      if !ScalarsMatch(a) then false
      else if candidateKeys.Some? && key !in candidateKeys.value then false
      else if excludedKeys.Some? && key in excludedKeys.value then false
      else if !RequiresMetadata() then true
      else TypedMatch(a) && EqualsMatch(a.metadata) && InMatch(a.metadata)
    }
  }

  // ----- The column-wise filter over a snapshot -----

  /** One cached snapshot, column by column. The last two columns are empty until metadata is materialised. */
  datatype Snapshot = Snapshot(
    keys: seq<string>,
    sourceIds: seq<string>,
    workspaceIds: seq<Option<string>>,
    sourceKinds: seq<string>,
    statuses: seq<string>,
    metadata: seq<Metadata>,
    uris: seq<Option<string>>)
  {
    predicate Materialized() { |metadata| == |keys| }

    ghost predicate WellFormed() {
      && |keys| == |sourceIds| == |workspaceIds| == |sourceKinds| == |statuses|
      && |metadata| == |uris| && (|metadata| == 0 || |metadata| == |keys|)
      && Distinct(keys)
    }

    /** The attributes of row i, given the stored metadata and uri columns. */
    function Row(i: nat, storedMetadata: seq<Metadata>, storedUris: seq<Option<string>>): Attributes
      requires WellFormed() && i < |keys| == |storedMetadata| == |storedUris|
    {
      Attributes(sourceIds[i], workspaceIds[i], sourceKinds[i], statuses[i], storedMetadata[i], storedUris[i])
    }

    /** The snapshot's metadata columns are absent or are the stored ones. */
    ghost predicate Reflects(storedMetadata: seq<Metadata>, storedUris: seq<Option<string>>) {
      && WellFormed() && |storedMetadata| == |storedUris| == |keys|
      && (Materialized() ==> metadata == storedMetadata && uris == storedUris)
    }
  }

  const SCALAR_FILTER_NAMES := {
    "candidate_ids", "candidate_storage_keys", "include_inactive", "lifecycle_status", "lifecycle_statuses",
    "source_filter", "source_kind", "source_kinds", "status", "statuses", "workspace_id"}

  predicate CanPrefilterScalars(names: set<string>, p: CompiledFilter) {
    names <= SCALAR_FILTER_NAMES && !p.Typed() && p.metadataEquals.None?
  }

  predicate CanPrefilterMetadata(p: CompiledFilter) {
    (p.metadataEquals.Some? || p.metadataIn.Some?) && !p.Typed()
  }

  /** The predicate was compiled from filters of these names: the two names the scalar shortcut relies on. */
  predicate CompiledFrom(names: set<string>, p: CompiledFilter) {
    && (p.metadataIn.Some? ==> "metadata_in" in names)
    && (p.excludedKeys.Some? ==> "exclude_storage_keys" in names)
  }

  /** The predicate the column-wise filter decides: its metadata shortcut returns before any excluded key
      is looked at. */
  function Decided(p: CompiledFilter): CompiledFilter {
    if CanPrefilterMetadata(p) then p.(excludedKeys := None) else p
  }

  function Where(positions: seq<nat>, mask: nat -> bool): (r: seq<nat>)
    ensures Ascending(positions) ==> Ascending(r)
    ensures forall i: nat :: i in r <==> i in positions && mask(i)
  {
    if positions == [] then []
    else
      var last := positions[|positions| - 1];
      var rest := Where(positions[..|positions| - 1], mask);
      assert positions == positions[..|positions| - 1] + [last];
      assert Ascending(positions) ==> Ascending(rest + [last]) by {
        if Ascending(positions) {
          assert forall i <- rest :: i in positions[..|positions| - 1] && i < last;
          AppendAscending(rest, last);
        }
      }
      if mask(last) then rest + [last] else rest
  }

  function Range(n: nat): (r: seq<nat>)
    ensures Ascending(r) && forall i: nat :: i in r <==> i < n
  {
    if n == 0 then [] else AppendAscending(Range(n - 1), n - 1); Range(n - 1) + [n - 1]
  }

  function PositionIndex(keys: seq<string>): (r: map<string, nat>)
    ensures forall k :: k in r <==> k in keys
    ensures forall k :: k in r ==> r[k] < |keys| && keys[r[k]] == k
  {
    if keys == [] then map[]
    else PositionIndex(keys[..|keys| - 1])[keys[|keys| - 1] := |keys| - 1]
  }

  /** The rows a candidate set leaves: all rows without one, else the sorted positions of the known keys. */
  function CandidatePositions(keys: seq<string>, candidates: Option<set<string>>): (r: seq<nat>)
    requires Distinct(keys)
    ensures Ascending(r)
    ensures forall i: nat :: i in r <==> i < |keys| && (candidates.Some? ==> keys[i] in candidates.value)
  {
    match candidates
    case None => Range(|keys|)
    case Some(wanted) =>
      var index := PositionIndex(keys);
      var found := set k | k in wanted && k in index :: index[k];
      assert forall i | 0 <= i < |keys| && keys[i] in wanted :: index[keys[i]] == i;
      Where(Range(|keys|), (i: nat) => i in found)
  }

  /** The scalar columns of a row match, and so does the candidate set. */
  predicate Passes(p: CompiledFilter, key: string, a: Attributes) {
    p.ScalarsMatch(a) && (p.candidateKeys.Some? ==> key in p.candidateKeys.value)
  }

  lemma DecidedByStages(p: CompiledFilter, key: string, a: Attributes)
    ensures Decided(p).Matches(key, a) ==> Passes(p, key, a)
    ensures CanPrefilterMetadata(p) ==>
      (Decided(p).Matches(key, a) <==> Passes(p, key, a) && p.EqualsMatch(a.metadata) && p.InMatch(a.metadata))
    ensures p.RequiresMetadata() && Decided(p).Matches(key, a) ==> p.EqualsMatch(a.metadata) && p.InMatch(a.metadata)
  {
    var q := p.(excludedKeys := None);
    assert q.EqualsMatch(a.metadata) == p.EqualsMatch(a.metadata) && q.InMatch(a.metadata) == p.InMatch(a.metadata);
  }

  lemma DecidedByScalars(names: set<string>, p: CompiledFilter, key: string, a: Attributes)
    requires CompiledFrom(names, p) && CanPrefilterScalars(names, p)
    ensures Decided(p).Matches(key, a) <==> Passes(p, key, a)
  {
    assert "metadata_in" !in SCALAR_FILTER_NAMES && "exclude_storage_keys" !in SCALAR_FILTER_NAMES;
  }

  /** `VectorSnapshot.filter_positions`. On every snapshot it selects, in ascending order, exactly the rows the
      decided predicate matches; it fails only when a row still needs metadata that was not materialised. */
  method FilterPositions(
      s: Snapshot, names: set<string>, p: CompiledFilter,
      ghost storedMetadata: seq<Metadata>, ghost storedUris: seq<Option<string>>)
    returns (r: Result<seq<nat>, string>)
    requires s.Reflects(storedMetadata, storedUris)
    requires CompiledFrom(names, p)
    ensures r.Ok? ==> Ascending(r.value)
    ensures r.Ok? ==> forall i: nat :: i in r.value <==>
      i < |s.keys| && Decided(p).Matches(s.keys[i], s.Row(i, storedMetadata, storedUris))
    ensures r.Err? ==> !CanPrefilterScalars(names, p) && !s.Materialized()
    ensures s.Materialized() ==> r.Ok?
  {
    forall i: nat | i < |s.keys| {
      DecidedByStages(p, s.keys[i], s.Row(i, storedMetadata, storedUris));
    }
    var positions := CandidatePositions(s.keys, p.candidateKeys);
    if positions == [] {
      if !CanPrefilterScalars(names, p) && !s.Materialized() {
        return Err("metadata must be materialized for this filter");
      }
      return Ok(positions);
    }
    positions := KeepScalars(s, positions, p, storedMetadata, storedUris);
    if positions == [] {
      return Ok(positions);
    }
    if CanPrefilterScalars(names, p) {
      forall i: nat | i < |s.keys| {
        DecidedByScalars(names, p, s.keys[i], s.Row(i, storedMetadata, storedUris));
      }
      return Ok(positions);
    }
    if !s.Materialized() {
      return Err("metadata must be materialized for this filter");
    }
    if p.metadataEquals.Some? {
      positions := KeepEqual(s, positions, p.metadataEquals.value);
    }
    if p.metadataIn.Some? {
      positions := KeepMembers(s, positions, p.metadataIn.value);
    }
    if positions == [] || CanPrefilterMetadata(p) {
      return Ok(positions);
    }
    positions := KeepMatching(s, positions, p);
    return Ok(positions);
  }

  /** The scalar prefilter, one column at a time. */
  method KeepScalars(
      s: Snapshot, start: seq<nat>, p: CompiledFilter,
      ghost storedMetadata: seq<Metadata>, ghost storedUris: seq<Option<string>>)
    returns (positions: seq<nat>)
    requires s.Reflects(storedMetadata, storedUris)
    requires Ascending(start) && forall i <- start :: i < |s.keys|
    ensures Ascending(positions)
    ensures forall i: nat :: i in positions <==>
      i in start && p.ScalarsMatch(s.Row(i, storedMetadata, storedUris))
  {
    positions := Where(start, (i: nat) => i < |s.statuses| && s.statuses[i] in p.statuses);
    if p.workspaceId.Some? {
      positions := Where(positions, (i: nat) => i < |s.workspaceIds| && s.workspaceIds[i] == p.workspaceId);
    }
    if p.sourceKinds.Some? {
      positions := Where(positions, (i: nat) => i < |s.sourceKinds| && s.sourceKinds[i] in p.sourceKinds.value);
    }
  }

  /** The row-by-row pass for filters no column comparison decides. */
  method KeepMatching(s: Snapshot, start: seq<nat>, p: CompiledFilter) returns (matched: seq<nat>)
    requires s.WellFormed() && s.Materialized() && Ascending(start) && forall i <- start :: i < |s.keys|
    ensures Ascending(matched)
    ensures forall i: nat :: i in matched <==> i in start && p.Matches(s.keys[i], s.Row(i, s.metadata, s.uris))
  {
    matched := [];
    for j := 0 to |start|
      invariant Ascending(matched)
      invariant forall i: nat :: i in matched <==>
        i in start[..j] && i < |s.keys| && p.Matches(s.keys[i], s.Row(i, s.metadata, s.uris))
    {
      assert start[..j + 1] == start[..j] + [start[j]] && start[j] in start;
      if p.Matches(s.keys[start[j]], s.Row(start[j], s.metadata, s.uris)) {
        assert forall i <- matched :: i in start[..j] && i < start[j];
        AppendAscending(matched, start[j]);
        matched := matched + [start[j]];
      }
    }
    assert start[..|start|] == start;
  }

  /** One column comparison per `metadata_equals` field. */
  method KeepEqual(s: Snapshot, start: seq<nat>, fields: seq<(string, string)>) returns (positions: seq<nat>)
    requires s.WellFormed() && s.Materialized() && Ascending(start) && forall i <- start :: i < |s.keys|
    ensures Ascending(positions)
    ensures forall i: nat :: i in positions <==>
      i in start && forall e <- fields :: PyStr(Field(s.metadata[i], e.0)) == e.1
  {
    positions := start;
    for j := 0 to |fields|
      invariant Ascending(positions)
      invariant forall i: nat :: i in positions <==>
        i in start && forall e <- fields[..j] :: PyStr(Field(s.metadata[i], e.0)) == e.1
    {
      assert fields[..j + 1] == fields[..j] + [fields[j]];
      positions := Where(positions, (i: nat) => i < |s.metadata| && PyStr(Field(s.metadata[i], fields[j].0)) == fields[j].1);
    }
    assert fields[..|fields|] == fields;
  }

  /** One column membership test per `metadata_in` field. */
  method KeepMembers(s: Snapshot, start: seq<nat>, fields: seq<(string, set<string>)>) returns (positions: seq<nat>)
    requires s.WellFormed() && s.Materialized() && Ascending(start) && forall i <- start :: i < |s.keys|
    ensures Ascending(positions)
    ensures forall i: nat :: i in positions <==>
      i in start && forall e <- fields :: PyStr(Field(s.metadata[i], e.0)) in e.1
  {
    positions := start;
    for j := 0 to |fields|
      invariant Ascending(positions)
      invariant forall i: nat :: i in positions <==>
        i in start && forall e <- fields[..j] :: PyStr(Field(s.metadata[i], e.0)) in e.1
    {
      assert fields[..j + 1] == fields[..j] + [fields[j]];
      positions := Where(positions, (i: nat) => i < |s.metadata| && PyStr(Field(s.metadata[i], fields[j].0)) in fields[j].1);
    }
    assert fields[..|fields|] == fields;
  }

  // ----- Where the column-wise filter and the row predicate part -----

  /** Row i is one the row predicate rejects for its excluded key alone, under the metadata shortcut. */
  predicate LetThrough(p: CompiledFilter, key: string, a: Attributes) {
    && CanPrefilterMetadata(p)
    && p.excludedKeys.Some? && key in p.excludedKeys.value
    && p.(excludedKeys := None).Matches(key, a)
  }

  /** The decided predicate and the row predicate agree on a row exactly when the row is not let through. */
  lemma DecidedAgreesExactlyWhen(p: CompiledFilter, key: string, a: Attributes)
    ensures (Decided(p).Matches(key, a) <==> p.Matches(key, a)) <==> !LetThrough(p, key, a)
  {
    var q := p.(excludedKeys := None);
    assert q.RequiresMetadata() == p.RequiresMetadata() && q.TypedMatch(a) == p.TypedMatch(a);
    assert q.EqualsMatch(a.metadata) == p.EqualsMatch(a.metadata) && q.InMatch(a.metadata) == p.InMatch(a.metadata);
  }

  /** The selection `FilterPositions` makes is the row predicate's selection exactly when no row is let through. */
  lemma SelectionIsMatchesExactlyWhen(
      s: Snapshot, p: CompiledFilter, positions: seq<nat>,
      storedMetadata: seq<Metadata>, storedUris: seq<Option<string>>)
    requires s.Reflects(storedMetadata, storedUris)
    requires forall i: nat :: i in positions <==>
      i < |s.keys| && Decided(p).Matches(s.keys[i], s.Row(i, storedMetadata, storedUris))
    ensures
      (forall i: nat :: i in positions <==>
        i < |s.keys| && p.Matches(s.keys[i], s.Row(i, storedMetadata, storedUris)))
      <==>
      (forall i: nat | i < |s.keys| :: !LetThrough(p, s.keys[i], s.Row(i, storedMetadata, storedUris)))
  {
    forall i: nat | i < |s.keys| {
      DecidedAgreesExactlyWhen(p, s.keys[i], s.Row(i, storedMetadata, storedUris));
    }
  }

  /** Without excluded keys next to a metadata-only filter, the two predicates are the same predicate. */
  lemma DecidedIsMatches(p: CompiledFilter)
    requires p.excludedKeys.None? || !CanPrefilterMetadata(p)
    ensures forall key, a :: Decided(p).Matches(key, a) <==> p.Matches(key, a)
  {
    forall key, a ensures Decided(p).Matches(key, a) <==> p.Matches(key, a) {
      DecidedAgreesExactlyWhen(p, key, a);
    }
  }

  /** An excluded key survives a `metadata_equals` filter: the input on which the two disagree. */
  lemma ExcludedKeySurvivesMetadataFilter()
    ensures exists p: CompiledFilter, key: string, a: Attributes ::
      Decided(p).Matches(key, a) && !p.Matches(key, a)
  {
    var p := CompiledFilter(
      {"active"}, None, None, None, Some({"k"}), None, None, None, None, None, None,
      Some([("lang", "en")]), None, []);
    var a := Attributes("s", None, "note", "active", map["lang" := Text("en")], None);
    assert p.EqualsMatch(a.metadata) && p.(excludedKeys := None).EqualsMatch(a.metadata);
    assert Decided(p).Matches("k", a) && !p.Matches("k", a);
  }
}
