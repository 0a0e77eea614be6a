/** Publication of one FAISS state to disk, pruning of superseded generations, and the validating loader
    (searchkernel/indices/faiss_local.py). Writing or unlinking a single file is atomic; a crash may fall between
    any two of those operations, and the disk records every content a crash could leave behind. */
module FaissPublish {
  import opened Base
  import opened VectorFilter
  import opened FaissRefresh

  type Byte = b: int | 0 <= b < 256
  type Bytes = seq<Byte>

  const NEWLINE: Byte := 10
  const RETAINED_GENERATIONS := 3

  /** `<epoch>-<build fingerprint>-<time in nanoseconds>`. */
  datatype Generation = Generation(epoch: nat, fingerprint: string, time: nat)

  datatype FileName =
    | IndexFile(generation: Generation)
    | MetadataFile(generation: Generation)
    | ManifestFile
    | OtherFile(name: string)

  datatype Location = Location(offset: nat, length: nat)

  /** What has to agree between a manifest and the store reading it, besides the epoch. */
  datatype Header = Header(
    formatVersion: nat, stateVersion: nat, normalization: string, encoderNamespace: string, dim: nat,
    buildFingerprint: string)

  datatype Manifest = Manifest(
    header: Header,
    generation: Generation,
    epoch: nat,
    ids: seq<int>,
    keys: seq<string>,
    active: seq<int>,
    revisions: Option<seq<string>>,
    tombstones: seq<(int, string)>,
    indexFile: FileName,
    metadataFile: FileName,
    indexSize: nat,
    metadataSize: nat,
    offsets: map<string, Location>)

  datatype File = Blob(bytes: Bytes) | Json(manifest: Manifest)

  type Files = map<FileName, File>

  /** The libraries that turn an index and a metadata line into bytes and back. */
  datatype Codec = Codec(
    encodeIndex: seq<Entry> -> Bytes,
    decodeIndex: Bytes -> Option<seq<Entry>>,
    encodeLine: (string, Attributes) -> Bytes,
    decodeLine: Bytes -> Option<(string, Attributes)>)
  {
    ghost predicate Lawful() {
      && (forall entries :: decodeIndex(encodeIndex(entries)) == Some(entries))
      && (forall k, a :: decodeLine(encodeLine(k, a)) == Some((k, a)))
      && (forall k, a :: encodeLine(k, a) != [] && encodeLine(k, a)[|encodeLine(k, a)| - 1] == NEWLINE)
    }
  }

  /** A cached state at the moment its index was serialised. */
  datatype FrozenState = FrozenState(
    epoch: nat,
    ids: seq<int>,
    keys: seq<string>,
    candidates: map<string, Attributes>,
    active: set<int>,
    revisions: Option<map<int, string>>,
    entries: seq<Entry>)
  {
    ghost predicate Publishable() {
      && |ids| == |keys| && Distinct(ids) && Distinct(keys)
      && (forall k <- keys :: k in candidates)
      && active <= Elements(ids)
      && (revisions.Some? ==> Tracked(ids, revisions.value) && |entries| == |revisions.value|)
      && (revisions.None? ==> |entries| == |ids|)
    }
  }

  /** Every state the diff or the rebuild produces is publishable. */
  lemma StatesArePublishable(
      s: FaissState, rows: seq<StoredVector>, dead: map<int, string>, stableId: StableId, decode: Decode)
    requires DistinctKeys(rows) && Injective(stableId) && MatchesStore(s, rows, stableId, decode) && s.Consistent()
    requires s.revisions.Some? ==> AllRevisioned(rows) && s.revisions.value == LiveRevisions(rows, stableId) + dead
    requires s.revisions.None? ==> |s.index.entries| == |rows|
    ensures FrozenState(s.epoch, s.ids, s.keys, s.candidates, s.active, s.revisions, s.index.entries).Publishable()
  {
    ActiveIdsOf(rows, stableId, decode);
    if s.revisions.Some? {
      ContentsCardinality(s.index.entries);
      LiveRevisionsOf(rows, stableId);
      forall i | 0 <= i < |s.ids| ensures s.ids[i] in s.revisions.value {
        assert rows[i] in rows;
      }
    }
    forall id | id in s.active ensures id in s.ids {
      var r :| r in rows && stableId(r.key) == id;
      var i :| 0 <= i < |rows| && rows[i] == r;
      assert s.ids[i] == id;
    }
  }

  // ----- The disk -----

  /** At most this file is new, replaced or gone. */
  ghost predicate SameBut(a: Files, b: Files, name: FileName) {
    forall other :: other != name ==> SameFile(a, b, other)
  }

  ghost predicate SameFile(a: Files, b: Files, name: FileName) {
    (name in a <==> name in b) && (name in a ==> a[name] == b[name])
  }

  ghost predicate OneStep(a: Files, b: Files) {
    exists name :: SameBut(a, b, name)
  }

  /** Each content follows from the one before by one write or one unlink. */
  ghost predicate OneByOne(history: seq<Files>) {
    |history| > 1 ==>
      var n := |history| - 1;
      OneByOne(history[..n]) && OneStep(history[n - 1], history[n])
  }

  lemma OneMore(history: seq<Files>, next: Files, name: FileName)
    requires history != [] && OneByOne(history) && SameBut(history[|history| - 1], next, name)
    ensures OneByOne(history + [next])
  {
    assert (history + [next])[..|history|] == history;
  }

  class Disk {
    var files: Files
    /** Every content the disk has had, one per atomic operation. */
    ghost var history: seq<Files>

    /** Nothing is missing from the history: it leads to the present content in single operations. */
    ghost predicate Valid()
      reads this
    {
      history != [] && history[|history| - 1] == files && OneByOne(history)
    }

    constructor (initial: Files)
      ensures Valid() && files == initial && history == [initial]
    {
      files, history := initial, [initial];
    }

    method Write(name: FileName, file: File)
      requires Valid()
      modifies this
      ensures Valid() && files == old(files)[name := file] && history == old(history) + [files]
    {
      OneMore(history, files[name := file], name);
      files := files[name := file];
      history := history + [files];
    }

    method Unlink(name: FileName)
      requires Valid()
      modifies this
      ensures Valid() && files == old(files) - {name} && history == old(history) + [files]
    {
      OneMore(history, files - {name}, name);
      files := files - {name};
      history := history + [files];
    }
  }

  // ----- The metadata sidecar -----

  function Lines(c: Codec, keys: seq<string>, candidates: map<string, Attributes>): seq<Bytes>
    requires forall k <- keys :: k in candidates
  {
    seq(|keys|, i requires 0 <= i < |keys| => assert keys[i] in keys; c.encodeLine(keys[i], candidates[keys[i]]))
  }

  function Join(lines: seq<Bytes>): Bytes {
    if lines == [] then [] else Join(lines[..|lines| - 1]) + lines[|lines| - 1]
  }

  function LocationOf(lines: seq<Bytes>, i: nat): Location
    requires i < |lines|
  {
    Location(|Join(lines[..i])|, |lines[i]|)
  }

  /** Every offset is where the key's line lies. */
  ghost predicate Recorded(keys: seq<string>, lines: seq<Bytes>, offsets: map<string, Location>) {
    && |lines| == |keys| && offsets.Keys == Elements(keys)
    && forall i | 0 <= i < |keys| :: keys[i] in offsets && offsets[keys[i]] == LocationOf(lines, i)
  }

  /** What the loader demands of offsets: one per key, the located lines in order, without overlap, in the file. */
  ghost predicate OffsetsValid(keys: seq<string>, offsets: map<string, Location>, size: nat) {
    offsets.Keys == Elements(keys) && forall i :: 0 <= i < |keys| ==> LineFits(keys, offsets, size, i)
  }

  /** The i-th key's location is not empty, inside the file and not before the end of the previous one. */
  predicate LineFits(keys: seq<string>, offsets: map<string, Location>, size: nat, i: nat)
    requires i < |keys|
  {
    && keys[i] in offsets
    && offsets[keys[i]].length >= 1
    && offsets[keys[i]].offset + offsets[keys[i]].length <= size
    && (i > 0 ==> keys[i - 1] in offsets
                  && offsets[keys[i]].offset >= offsets[keys[i - 1]].offset + offsets[keys[i - 1]].length)
  }

  lemma {:induction false} JoinSlice(lines: seq<Bytes>, i: nat)
    requires i < |lines|
    ensures
      var l := LocationOf(lines, i);
      l.offset + l.length <= |Join(lines)| && Join(lines)[l.offset..l.offset + l.length] == lines[i]
  {
    var n := |lines| - 1;
    var init := Join(lines[..n]);
    if i < n {
      JoinSlice(lines[..n], i);
      assert lines[..n][..i] == lines[..i];
      var l := LocationOf(lines, i);
      assert (init + lines[n])[l.offset..l.offset + l.length] == init[l.offset..l.offset + l.length];
    }
  }

  lemma RecordedIsValid(keys: seq<string>, lines: seq<Bytes>, offsets: map<string, Location>)
    requires Recorded(keys, lines, offsets) && forall line <- lines :: line != []
    ensures OffsetsValid(keys, offsets, |Join(lines)|)
  {
    forall i | 0 <= i < |keys|
      ensures offsets[keys[i]].length >= 1
      ensures offsets[keys[i]].offset + offsets[keys[i]].length <= |Join(lines)|
      ensures i > 0 ==>
        offsets[keys[i]].offset == offsets[keys[i - 1]].offset + offsets[keys[i - 1]].length
    {
      assert lines[i] in lines;
      JoinSlice(lines, i);
      if i > 0 {
        assert lines[..i][..i - 1] == lines[..i - 1] && lines[..i][i - 1] == lines[i - 1];
      }
    }
  }

  /** `write_metadata`: one line per key, remembering where each line went. */
  method WriteMetadata(c: Codec, keys: seq<string>, candidates: map<string, Attributes>)
    returns (bytes: Bytes, offsets: map<string, Location>)
    requires Distinct(keys) && forall k <- keys :: k in candidates
    ensures bytes == Join(Lines(c, keys, candidates))
    ensures Recorded(keys, Lines(c, keys, candidates), offsets)
  {
    bytes, offsets := [], map[];
    ghost var lines := Lines(c, keys, candidates);
    ghost var located := seq(|lines|, i requires 0 <= i < |lines| => LocationOf(lines, i));
    for i := 0 to |keys|
      invariant bytes == Join(lines[..i])
      invariant forall k :: k in offsets ==> k in keys
      invariant forall j | 0 <= j < i :: keys[j] in offsets && offsets[keys[j]] == located[j]
    {
      assert lines[..i + 1][..i] == lines[..i] && keys[i] in keys;
      var line := c.encodeLine(keys[i], candidates[keys[i]]);
      offsets := offsets[keys[i] := Location(|bytes|, |line|)];
      bytes := bytes + line;
    }
    assert lines[..|keys|] == lines;
  }

  /** `_SidecarMetadataReader.get`. */
  function ReadMetadata(c: Codec, bytes: Bytes, offsets: map<string, Location>, key: string): Result<Option<Attributes>, string> {
    if key !in offsets then Ok(None)
    else
      var l := offsets[key];
      if l.offset + l.length > |bytes| || l.length == 0 || bytes[l.offset + l.length - 1] != NEWLINE
      then Err("FAISS metadata sidecar record is truncated")
      else
        match c.decodeLine(bytes[l.offset..l.offset + l.length])
        case None => Err("FAISS metadata sidecar record is malformed")
        case Some(line) =>
          if line.0 != key then Err("FAISS metadata sidecar key mismatch") else Ok(Some(line.1))
  }

  lemma LineReadsBack(c: Codec, bytes: Bytes, offsets: map<string, Location>, key: string, a: Attributes)
    requires c.Lawful() && key in offsets
    requires offsets[key].offset + offsets[key].length <= |bytes|
    requires bytes[offsets[key].offset..offsets[key].offset + offsets[key].length] == c.encodeLine(key, a)
    ensures ReadMetadata(c, bytes, offsets, key) == Ok(Some(a))
  {
    var l, line := offsets[key], c.encodeLine(key, a);
    assert line != [] && line[|line| - 1] == NEWLINE;
    assert bytes[l.offset + l.length - 1] == bytes[l.offset..l.offset + l.length][l.length - 1];
    assert c.decodeLine(line) == Some((key, a));
  }

  /** Through its offset, every published key reads back its own metadata, and no other key reads anything. */
  lemma SidecarRoundTrip(
      c: Codec, keys: seq<string>, candidates: map<string, Attributes>, offsets: map<string, Location>, key: string)
    requires c.Lawful() && (forall k <- keys :: k in candidates)
    requires Recorded(keys, Lines(c, keys, candidates), offsets)
    ensures ReadMetadata(c, Join(Lines(c, keys, candidates)), offsets, key)
      == Ok(if key in keys then Some(candidates[key]) else None)
  {
    assert key in offsets <==> key in Elements(keys);
    if key in offsets {
      var i :| 0 <= i < |keys| && keys[i] == key;
      KeyReadsBack(c, keys, candidates, offsets, i);
    }
  }

  lemma KeyReadsBack(
      c: Codec, keys: seq<string>, candidates: map<string, Attributes>, offsets: map<string, Location>, i: nat)
    requires c.Lawful() && (forall k <- keys :: k in candidates) && i < |keys|
    requires Recorded(keys, Lines(c, keys, candidates), offsets)
    ensures keys[i] in candidates
    ensures ReadMetadata(c, Join(Lines(c, keys, candidates)), offsets, keys[i]) == Ok(Some(candidates[keys[i]]))
  {
    var lines := Lines(c, keys, candidates);
    assert keys[i] in keys;
    JoinSlice(lines, i);
    LineReadsBack(c, Join(lines), offsets, keys[i], candidates[keys[i]]);
  }

  // ----- The validating loader -----

  datatype Loaded = Loaded(
    epoch: nat,
    ids: seq<int>,
    keys: seq<string>,
    active: set<int>,
    revisions: Option<map<int, string>>,
    entries: seq<Entry>,
    sidecar: FileName,
    offsets: map<string, Location>)

  function ZipRevisions(ids: seq<int>, revisions: seq<string>): map<int, string>
    requires |ids| == |revisions|
  {
    if ids == [] then map[]
    else
      var n := |ids| - 1;
      ZipRevisions(ids[..n], revisions[..n])[ids[n] := revisions[n]]
  }

  /** The tombstones added one by one; a tombstone under a known identifier invalidates the manifest. */
  function AddTombstones(live: map<int, string>, tombstones: seq<(int, string)>): Option<map<int, string>> {
    if tombstones == [] then Some(live)
    else
      var n := |tombstones| - 1;
      var before := AddTombstones(live, tombstones[..n]);
      if before.None? || tombstones[n].0 in before.value then None
      else Some(before.value[tombstones[n].0 := tombstones[n].1])
  }

  /** `_load_index_revisions`: the error, or the revisions if the manifest carries any. */
  function ManifestRevisions(m: Manifest): Option<Option<map<int, string>>> {
    if m.revisions.None? then Some(None)
    else if |m.revisions.value| != |m.ids| then None
    else
      var all := AddTombstones(ZipRevisions(m.ids, m.revisions.value), m.tombstones);
      if all.None? then None else Some(all)
  }

  predicate HeaderMatches(m: Manifest, header: Header, epoch: Option<nat>) {
    && m.generation.fingerprint == header.buildFingerprint
    && (epoch.Some? ==> m.generation.epoch == epoch.value)
    && m.indexFile == IndexFile(m.generation) && m.metadataFile == MetadataFile(m.generation)
    && m.header == header && m.epoch == m.generation.epoch
  }

  /** What loading the published generation must yield: nothing, or exactly the state the manifest describes. */
  ghost function LoadSpec(c: Codec, files: Files, header: Header, epoch: Option<nat>): Option<Loaded> {
    if ManifestFile !in files || !files[ManifestFile].Json? then None
    else
      var m := files[ManifestFile].manifest;
      var revisions := ManifestRevisions(m);
      if !HeaderMatches(m, header, epoch) then None
      else if |m.ids| != |m.keys| || !Unique(m.ids) || !Unique(m.keys) then None
      else if !Unique(m.active) || !(Elements(m.active) <= Elements(m.ids)) then None
      else if revisions.None? || !OffsetsValid(m.keys, m.offsets, m.metadataSize) then None
      else if !HasBlob(files, m.indexFile, m.indexSize) || !HasBlob(files, m.metadataFile, m.metadataSize) then None
      else
        var entries := c.decodeIndex(files[m.indexFile].bytes);
        var expected := if revisions.value.Some? then |revisions.value.value| else |m.ids|;
        if entries.None? || |entries.value| != expected then None
        else Some(Loaded(m.generation.epoch, m.ids, m.keys, Elements(m.active), revisions.value, entries.value,
                         m.metadataFile, m.offsets))
  }

  predicate HasBlob(files: Files, name: FileName, size: nat) {
    name in files && files[name].Blob? && |files[name].bytes| == size
  }

  /** `_load_index_revisions`. */
  method LoadIndexRevisions(m: Manifest) returns (r: Option<Option<map<int, string>>>)
    ensures r == ManifestRevisions(m)
  {
    if m.revisions.None? {
      return Some(None);
    }
    if |m.revisions.value| != |m.ids| {
      return None;
    }
    var revisions := ZipRevisions(m.ids, m.revisions.value);
    ghost var live := revisions;
    for i := 0 to |m.tombstones|
      invariant AddTombstones(live, m.tombstones[..i]) == Some(revisions)
    {
      assert m.tombstones[..i + 1][..i] == m.tombstones[..i];
      if m.tombstones[i].0 in revisions {
        RejectedStays(live, m.tombstones, i + 1);
        return None;
      }
      revisions := revisions[m.tombstones[i].0 := m.tombstones[i].1];
    }
    assert m.tombstones[..|m.tombstones|] == m.tombstones;
    return Some(Some(revisions));
  }

  lemma RejectedStays(live: map<int, string>, tombstones: seq<(int, string)>, i: nat)
    requires i <= |tombstones| && AddTombstones(live, tombstones[..i]).None?
    ensures AddTombstones(live, tombstones).None?
    decreases |tombstones| - i
  {
    if i == |tombstones| {
      assert tombstones[..i] == tombstones;
    } else {
      assert tombstones[..i + 1][..i] == tombstones[..i];
      RejectedStays(live, tombstones, i + 1);
    }
  }

  /** `_load_metadata_offsets`: accepts exactly the valid offsets. */
  method LoadMetadataOffsets(keys: seq<string>, offsets: map<string, Location>, size: nat) returns (ok: bool)
    ensures ok <==> OffsetsValid(keys, offsets, size)
  {
    if offsets.Keys != Elements(keys) {
      return false;
    }
    var previousEnd := 0;
    for i := 0 to |keys|
      invariant offsets.Keys == Elements(keys)
      invariant previousEnd == if i == 0 then 0 else offsets[keys[i - 1]].offset + offsets[keys[i - 1]].length
      invariant i > 0 ==> keys[i - 1] in offsets
      invariant forall j :: 0 <= j < i ==> LineFits(keys, offsets, size, j)
    {
      assert keys[i] in Elements(keys);
      var l := offsets[keys[i]];
      if l.offset < previousEnd || l.length < 1 || l.offset + l.length > size {
        assert !LineFits(keys, offsets, size, i);
        return false;
      }
      previousEnd := l.offset + l.length;
    }
    return true;
  }

  /** `_load_split_state`. */
  method LoadSplit(c: Codec, disk: Disk, header: Header, epoch: Option<nat>) returns (r: Option<Loaded>)
    ensures r == LoadSpec(c, disk.files, header, epoch)
    ensures r.Some? ==> ConsistentlyLoaded(disk.files, epoch, r.value)
  {
    if ManifestFile !in disk.files || !disk.files[ManifestFile].Json? {
      return None;
    }
    var m := disk.files[ManifestFile].manifest;
    if !HeaderMatches(m, header, epoch) {
      return None;
    }
    if |m.ids| != |m.keys| || !Unique(m.ids) || !Unique(m.keys) {
      return None;
    }
    if !Unique(m.active) || !(Elements(m.active) <= Elements(m.ids)) {
      return None;
    }
    var revisions := LoadIndexRevisions(m);
    if revisions.None? {
      return None;
    }
    var located := LoadMetadataOffsets(m.keys, m.offsets, m.metadataSize);
    if !located || !HasBlob(disk.files, m.indexFile, m.indexSize)
       || !HasBlob(disk.files, m.metadataFile, m.metadataSize)
    {
      return None;
    }
    var entries := c.decodeIndex(disk.files[m.indexFile].bytes);
    var expected := if revisions.value.Some? then |revisions.value.value| else |m.ids|;
    if entries.None? || |entries.value| != expected {
      return None;
    }
    r := Some(Loaded(m.generation.epoch, m.ids, m.keys, Elements(m.active), revisions.value, entries.value,
                     m.metadataFile, m.offsets));
    LoadedIsConsistent(c, disk.files, header, epoch, r.value);
  }

  /** Whatever is on the disk, a state that loads is consistent: its identifiers and keys are distinct and paired, its
      active identifiers are among them, it is of the epoch asked for, the index has one entry per tracked identifier,
      and every key, and no other, has a line of its own inside the sidecar. */
  ghost predicate ConsistentlyLoaded(files: Files, epoch: Option<nat>, l: Loaded) {
    && |l.ids| == |l.keys| && Distinct(l.ids) && Distinct(l.keys) && l.active <= Elements(l.ids)
    && (epoch.Some? ==> l.epoch == epoch.value)
    && (l.revisions.None? ==> |l.entries| == |l.ids|)
    && (l.revisions.Some? ==> |l.entries| == |l.revisions.value| && Elements(l.ids) <= l.revisions.value.Keys)
    && l.offsets.Keys == Elements(l.keys)
    && l.sidecar in files && files[l.sidecar].Blob? && OwnLines(l.keys, l.offsets, |files[l.sidecar].bytes|)
  }

  ghost predicate OwnLines(keys: seq<string>, offsets: map<string, Location>, size: nat)
    requires offsets.Keys == Elements(keys)
  {
    && (forall i :: 0 <= i < |keys| ==>
          keys[i] in offsets && 1 <= offsets[keys[i]].length && offsets[keys[i]].offset + offsets[keys[i]].length <= size)
    && (forall i, j :: 0 <= i < j < |keys| ==>
          keys[i] in offsets && keys[j] in offsets
          && offsets[keys[i]].offset + offsets[keys[i]].length <= offsets[keys[j]].offset)
  }

  lemma LoadedIsConsistent(c: Codec, files: Files, header: Header, epoch: Option<nat>, l: Loaded)
    requires LoadSpec(c, files, header, epoch) == Some(l)
    ensures ConsistentlyLoaded(files, epoch, l)
  {
    var m := files[ManifestFile].manifest;
    UniqueIsDistinct(m.ids);
    UniqueIsDistinct(m.keys);
    ValidLinesAreOwn(m.keys, m.offsets, m.metadataSize);
    if l.revisions.Some? {
      var live := ZipRevisions(m.ids, m.revisions.value);
      ZipHas(m.ids, m.revisions.value);
      TombstonesKeep(live, m.tombstones);
    }
  }

  lemma {:induction false} ZipHas(ids: seq<int>, revisions: seq<string>)
    requires |ids| == |revisions|
    ensures ZipRevisions(ids, revisions).Keys == Elements(ids)
  {
    if ids != [] {
      var n := |ids| - 1;
      ZipHas(ids[..n], revisions[..n]);
      assert ids == ids[..n] + [ids[n]];
    }
  }

  lemma {:induction false} TombstonesKeep(live: map<int, string>, tombstones: seq<(int, string)>)
    requires AddTombstones(live, tombstones).Some?
    ensures live.Keys <= AddTombstones(live, tombstones).value.Keys
  {
    if tombstones != [] {
      TombstonesKeep(live, tombstones[..|tombstones| - 1]);
    }
  }

  lemma ValidLinesAreOwn(keys: seq<string>, offsets: map<string, Location>, size: nat)
    requires OffsetsValid(keys, offsets, size)
    ensures OwnLines(keys, offsets, size)
  {
    assert forall i :: 0 <= i < |keys| ==> keys[i] in Elements(keys) && LineFits(keys, offsets, size, i);
    forall i, j | 0 <= i < j < |keys|
      ensures offsets[keys[i]].offset + offsets[keys[i]].length <= offsets[keys[j]].offset
    {
      LinesAscend(keys, offsets, size, i, j);
    }
  }

  lemma {:induction false} LinesAscend(keys: seq<string>, offsets: map<string, Location>, size: nat, i: nat, j: nat)
    requires OffsetsValid(keys, offsets, size) && i < j < |keys| && keys[i] in offsets && keys[j] in offsets
    ensures offsets[keys[i]].offset + offsets[keys[i]].length <= offsets[keys[j]].offset
    decreases j
  {
    assert LineFits(keys, offsets, size, j);
    if i < j - 1 {
      assert keys[j - 1] in Elements(keys);
      LinesAscend(keys, offsets, size, i, j - 1);
    }
  }

  // ----- The manifest of a state, and its way back -----

  ghost predicate Tracked(ids: seq<int>, revisions: map<int, string>) {
    forall i | 0 <= i < |ids| :: ids[i] in revisions
  }

  function TombstoneList(ids: seq<int>, revisions: map<int, string>): seq<(int, string)>
    requires Tracked(ids, revisions)
  {
    seq(|ids|, i requires 0 <= i < |ids| => (ids[i], revisions[ids[i]]))
  }

  function RevisionList(ids: seq<int>, revisions: map<int, string>): seq<string>
    requires Tracked(ids, revisions)
  {
    seq(|ids|, i requires 0 <= i < |ids| => revisions[ids[i]])
  }

  /** The identifiers that are tracked but not live, in order. */
  function DeadIds(ids: seq<int>, revisions: map<int, string>): (r: seq<int>)
    ensures Tracked(r, revisions) && Distinct(r) && Elements(r) == revisions.Keys - Elements(ids)
  {
    var dead := revisions.Keys - Elements(ids);
    SortedIntsUnique(dead);
    UniqueIsDistinct(SortedInts(dead));
    var r := SortedInts(dead);
    assert forall i | 0 <= i < |r| :: r[i] in Elements(r);
    r
  }

  /** `_persistence_metadata` and the manifest fields around it. */
  function ManifestOf(
    s: FrozenState, header: Header, g: Generation, indexSize: nat, metadataSize: nat, offsets: map<string, Location>): Manifest
    requires s.revisions.Some? ==> Tracked(s.ids, s.revisions.value)
  {
    Manifest(
      header, g, s.epoch, s.ids, s.keys, SortedInts(s.active),
      if s.revisions.Some? then Some(RevisionList(s.ids, s.revisions.value)) else None,
      if s.revisions.Some? then TombstoneList(DeadIds(s.ids, s.revisions.value), s.revisions.value) else [],
      IndexFile(g), MetadataFile(g), indexSize, metadataSize, offsets)
  }

  function Restricted(revisions: map<int, string>, ids: seq<int>): map<int, string> {
    map id | id in revisions && id in ids :: revisions[id]
  }

  lemma {:induction false} ZipRestricts(ids: seq<int>, revisions: map<int, string>)
    requires Tracked(ids, revisions)
    ensures ZipRevisions(ids, RevisionList(ids, revisions)) == Restricted(revisions, ids)
  {
    if ids != [] {
      var n := |ids| - 1;
      ZipRestricts(ids[..n], revisions);
      assert RevisionList(ids, revisions)[..n] == RevisionList(ids[..n], revisions);
      assert ids == ids[..n] + [ids[n]];
    }
  }

  lemma {:induction false} TombstonesAdd(live: map<int, string>, ids: seq<int>, revisions: map<int, string>)
    requires Tracked(ids, revisions) && Distinct(ids)
    requires forall i | 0 <= i < |ids| :: ids[i] !in live
    ensures AddTombstones(live, TombstoneList(ids, revisions))
      == Some(live + ZipRevisions(ids, RevisionList(ids, revisions)))
  {
    var zipped := ZipRevisions(ids, RevisionList(ids, revisions));
    if ids == [] {
      assert live + zipped == live;
    } else {
      var n := |ids| - 1;
      var init, id := ids[..n], ids[n];
      TombstonesAdd(live, init, revisions);
      ZipKeys(init, RevisionList(init, revisions));
      assert RevisionList(ids, revisions)[..n] == RevisionList(init, revisions);
      var list := TombstoneList(ids, revisions);
      assert list[..n] == TombstoneList(init, revisions) && list[n] == (id, revisions[id]);
      var before := ZipRevisions(init, RevisionList(init, revisions));
      assert live + before[id := revisions[id]] == (live + before)[id := revisions[id]];
    }
  }

  lemma {:induction false} ZipKeys(ids: seq<int>, revisions: seq<string>)
    requires |ids| == |revisions|
    ensures forall id :: id in ZipRevisions(ids, revisions) ==> exists i | 0 <= i < |ids| :: ids[i] == id
  {
    if ids != [] {
      ZipKeys(ids[..|ids| - 1], revisions[..|ids| - 1]);
    }
  }

  lemma DeadBesideLive(ids: seq<int>, revisions: map<int, string>)
    requires Tracked(ids, revisions)
    ensures
      var dead := DeadIds(ids, revisions);
      && (forall i | 0 <= i < |dead| :: dead[i] !in Restricted(revisions, ids))
      && Restricted(revisions, ids) + Restricted(revisions, dead) == revisions
  {
    var dead := DeadIds(ids, revisions);
    forall i | 0 <= i < |dead| ensures dead[i] !in Restricted(revisions, ids) {
      assert dead[i] in Elements(dead);
    }
    assert forall id :: id in dead <==> id in Elements(dead);
  }

  /** Live and tombstoned revisions survive the split into two manifest lists. */
  lemma RevisionsRoundTrip(s: FrozenState, m: Manifest)
    requires s.revisions.Some? ==> Tracked(s.ids, s.revisions.value)
    requires m.ids == s.ids
    requires s.revisions.None? ==> m.revisions.None?
    requires s.revisions.Some? ==>
      && m.revisions == Some(RevisionList(s.ids, s.revisions.value))
      && m.tombstones == TombstoneList(DeadIds(s.ids, s.revisions.value), s.revisions.value)
    ensures ManifestRevisions(m) == Some(s.revisions)
  {
    if s.revisions.Some? {
      var revisions := s.revisions.value;
      ZipRestricts(s.ids, revisions);
      DeadBesideLive(s.ids, revisions);
      TombstonesAdd(Restricted(revisions, s.ids), DeadIds(s.ids, revisions), revisions);
      ZipRestricts(DeadIds(s.ids, revisions), revisions);
    }
  }

  /** The disk holds this manifest and the two files it names. */
  ghost predicate Holds(files: Files, m: Manifest, index: Bytes, metadata: Bytes) {
    && ManifestFile in files && files[ManifestFile] == Json(m)
    && m.indexFile in files && files[m.indexFile] == Blob(index)
    && m.metadataFile in files && files[m.metadataFile] == Blob(metadata)
  }

  /** Loading a published generation returns exactly the published state. */
  lemma LoadReturnsPublished(
      c: Codec, files: Files, s: FrozenState, header: Header, g: Generation, offsets: map<string, Location>,
      metadata: Bytes, epoch: Option<nat>)
    requires c.Lawful() && s.Publishable()
    requires g.epoch == s.epoch && g.fingerprint == header.buildFingerprint
    requires Recorded(s.keys, Lines(c, s.keys, s.candidates), offsets)
    requires metadata == Join(Lines(c, s.keys, s.candidates))
    requires Holds(files, ManifestOf(s, header, g, |c.encodeIndex(s.entries)|, |metadata|, offsets),
                   c.encodeIndex(s.entries), metadata)
    ensures LoadSpec(c, files, header, epoch)
      == if epoch.None? || epoch.value == s.epoch
         then Some(Loaded(s.epoch, s.ids, s.keys, s.active, s.revisions, s.entries, MetadataFile(g), offsets))
         else None
  {
    var m := ManifestOf(s, header, g, |c.encodeIndex(s.entries)|, |metadata|, offsets);
    LinesNonEmpty(c, s.keys, s.candidates);
    RecordedIsValid(s.keys, Lines(c, s.keys, s.candidates), offsets);
    PublishedIsWellFormed(s, header, g, |c.encodeIndex(s.entries)|, |metadata|, offsets);
    WellFormedLoads(c, files, m, header, epoch, c.encodeIndex(s.entries), metadata, s.revisions, s.entries);
  }

  /** What the loader checks of a manifest on its own. */
  ghost predicate WellFormed(m: Manifest, revisions: Option<map<int, string>>) {
    && |m.ids| == |m.keys| && Unique(m.ids) && Unique(m.keys)
    && Unique(m.active) && Elements(m.active) <= Elements(m.ids)
    && ManifestRevisions(m) == Some(revisions) && OffsetsValid(m.keys, m.offsets, m.metadataSize)
  }

  lemma PublishedIsWellFormed(
      s: FrozenState, header: Header, g: Generation, indexSize: nat, metadataSize: nat, offsets: map<string, Location>)
    requires s.Publishable() && OffsetsValid(s.keys, offsets, metadataSize)
    ensures
      var m := ManifestOf(s, header, g, indexSize, metadataSize, offsets);
      WellFormed(m, s.revisions) && Elements(m.active) == s.active
  {
    RevisionsRoundTrip(s, ManifestOf(s, header, g, indexSize, metadataSize, offsets));
    UniqueIsDistinct(s.ids);
    UniqueIsDistinct(s.keys);
    SortedIntsUnique(s.active);
  }

  lemma WellFormedLoads(
      c: Codec, files: Files, m: Manifest, header: Header, epoch: Option<nat>, index: Bytes, metadata: Bytes,
      revisions: Option<map<int, string>>, entries: seq<Entry>)
    requires WellFormed(m, revisions) && Holds(files, m, index, metadata)
    requires m.indexSize == |index| && m.metadataSize == |metadata| && c.decodeIndex(index) == Some(entries)
    requires |entries| == if revisions.Some? then |revisions.value| else |m.ids|
    ensures LoadSpec(c, files, header, epoch)
      == if HeaderMatches(m, header, epoch)
         then Some(Loaded(m.generation.epoch, m.ids, m.keys, Elements(m.active), revisions, entries, m.metadataFile,
                          m.offsets))
         else None
  {
  }

  lemma LinesNonEmpty(c: Codec, keys: seq<string>, candidates: map<string, Attributes>)
    requires c.Lawful() && forall k <- keys :: k in candidates
    ensures forall line <- Lines(c, keys, candidates) :: line != []
  {
  }

  // ----- Pruning -----

  function Digit(n: nat): char
    requires n < 10
  {
    "0123456789"[n]
  }

  function Decimal(n: nat): string {
    if n < 10 then [Digit(n)] else Decimal(n / 10) + [Digit(n % 10)]
  }

  lemma {:induction false} DecimalInjective(a: nat, b: nat)
    requires Decimal(a) == Decimal(b)
    ensures a == b
  {
    var s, t := Decimal(a), Decimal(b);
    assert s[|s| - 1] == Digit(a % 10) && t[|t| - 1] == Digit(b % 10);
    assert a >= 10 ==> |Decimal(a / 10)| > 0 && s[..|s| - 1] == Decimal(a / 10);
    assert b >= 10 ==> |Decimal(b / 10)| > 0 && t[..|t| - 1] == Decimal(b / 10);
    if a >= 10 && b >= 10 {
      DecimalInjective(a / 10, b / 10);
    }
  }

  function FileStem(g: Generation): string {
    Decimal(g.epoch) + ("-" + g.fingerprint + "-" + Decimal(g.time))
  }

  /** Sort order of the pruner: newest first; equal times are told apart by the file name. */
  predicate Newer(a: Generation, b: Generation) {
    a.time > b.time || (a.time == b.time && KeyLess(FileStem(b), FileStem(a)))
  }

  lemma NewerTotal(a: Generation, b: Generation)
    requires a.fingerprint == b.fingerprint
    ensures a == b || Newer(a, b) || Newer(b, a)
  {
    KeyLessTotal(FileStem(a), FileStem(b));
    if a.time == b.time && FileStem(a) == FileStem(b) {
      var suffix := "-" + a.fingerprint + "-" + Decimal(a.time);
      assert |Decimal(a.epoch)| == |Decimal(b.epoch)|;
      assert FileStem(a)[..|Decimal(a.epoch)|] == Decimal(a.epoch);
      assert FileStem(b)[..|Decimal(b.epoch)|] == Decimal(b.epoch);
      DecimalInjective(a.epoch, b.epoch);
    }
  }

  lemma NewerTransitive(a: Generation, b: Generation, c: Generation)
    requires Newer(a, b) && Newer(b, c)
    ensures Newer(a, c)
  {
    if a.time == b.time && b.time == c.time {
      KeyLessTransitive(FileStem(c), FileStem(b), FileStem(a));
    }
  }

  lemma NewerAsymmetric(a: Generation, b: Generation)
    requires Newer(a, b)
    ensures a != b && !Newer(b, a)
  {
    if a.time == b.time {
      KeyLessAsymmetric(FileStem(b), FileStem(a));
    }
  }

  ghost predicate NewestFirst(gs: seq<Generation>) {
    forall i, j :: 0 <= i < j < |gs| ==> Newer(gs[i], gs[j])
  }

  function InsertNewest(gs: seq<Generation>, g: Generation): seq<Generation> {
    if gs == [] || Newer(g, gs[0]) then [g] + gs else [gs[0]] + InsertNewest(gs[1..], g)
  }

  lemma {:induction false} InsertNewestKeepsOrder(gs: seq<Generation>, g: Generation)
    requires NewestFirst(gs) && g !in gs
    requires forall h <- gs :: h.fingerprint == g.fingerprint
    ensures NewestFirst(InsertNewest(gs, g))
    ensures forall h :: h in InsertNewest(gs, g) <==> h in gs || h == g
  {
    if gs != [] && !Newer(g, gs[0]) {
      InsertNewestKeepsOrder(gs[1..], g);
      NewerTotal(g, gs[0]);
      var rest := InsertNewest(gs[1..], g);
      assert gs == [gs[0]] + gs[1..] && gs[0] in gs;
      forall j | 0 <= j < |rest| ensures Newer(gs[0], rest[j]) {
        assert rest[j] in rest;
      }
    } else if gs != [] {
      forall j | 0 <= j < |gs| ensures Newer(g, gs[j]) {
        if j > 0 {
          NewerTransitive(g, gs[0], gs[j]);
        }
      }
    }
  }

  /** `published.sort(reverse=True)`. */
  method SortNewestFirst(published: set<Generation>, fingerprint: string) returns (sorted: seq<Generation>)
    requires forall g <- published :: g.fingerprint == fingerprint
    ensures NewestFirst(sorted) && forall g :: g in sorted <==> g in published
  {
    sorted := [];
    var rest := published;
    while rest != {}
      invariant rest <= published && NewestFirst(sorted)
      invariant forall g :: g in sorted <==> g in published && g !in rest
      decreases rest
    {
      var g :| g in rest;
      InsertNewestKeepsOrder(sorted, g);
      sorted := InsertNewest(sorted, g);
      rest := rest - {g};
    }
  }

  /** How many published generations are newer. */
  function Rank(published: set<Generation>, g: Generation): nat {
    |set h | h in published && Newer(h, g)|
  }

  lemma RankIsPosition(sorted: seq<Generation>, published: set<Generation>, i: nat)
    requires NewestFirst(sorted) && (forall g :: g in sorted <==> g in published) && i < |sorted|
    ensures Rank(published, sorted[i]) == i
  {
    var newer := set h | h in published && Newer(h, sorted[i]);
    forall h ensures h in newer <==> h in sorted[..i] {
      if h in newer {
        var j :| 0 <= j < |sorted| && sorted[j] == h;
        NewerAsymmetric(h, sorted[i]);
        assert j < i;
      }
    }
    assert newer == Elements(sorted[..i]);
    forall j, k | 0 <= j < k < i ensures sorted[j] != sorted[k] {
      NewerAsymmetric(sorted[j], sorted[k]);
    }
    DistinctCardinality(sorted[..i]);
  }

  function PublishedOn(files: Files, fingerprint: string): set<Generation> {
    set name | name in files && name.IndexFile? && name.generation.fingerprint == fingerprint :: name.generation
  }

  /** The generations the pruner deletes: beyond the retained newest ones, not the one just published, and not
      one a cached state still reads. */
  function Superseded(published: set<Generation>, current: Generation, live: set<FileName>): set<Generation> {
    set g | g in published && Rank(published, g) >= RETAINED_GENERATIONS && g != current && MetadataFile(g) !in live
  }

  predicate FileOf(name: FileName, gs: set<Generation>) {
    (name.IndexFile? || name.MetadataFile?) && name.generation in gs
  }

  /** `after` is `before` with nothing missing but files of these generations. */
  ghost predicate OnlyMissing(before: Files, after: Files, gs: set<Generation>) {
    && (forall name :: name in after ==> name in before && after[name] == before[name])
    && (forall name :: name in before && name !in after ==> FileOf(name, gs))
  }

  method DeleteGeneration(disk: Disk, g: Generation, ghost before: Files, ghost gs: set<Generation>)
    requires disk.Valid() && OnlyMissing(before, disk.files, gs) && g in gs
    modifies disk
    ensures disk.Valid()
    ensures disk.files == old(disk.files) - {IndexFile(g), MetadataFile(g)} && OnlyMissing(before, disk.files, gs)
    ensures old(disk.history) <= disk.history
    ensures forall h <- disk.history[|old(disk.history)|..] :: OnlyMissing(before, h, gs)
  {
    disk.Unlink(IndexFile(g));
    ghost var between := disk.files;
    disk.Unlink(MetadataFile(g));
    assert disk.history[|old(disk.history)|..] == [between, disk.files];
  }

  /** The deletion loop of `_prune_generations`. */
  method DeleteSuperseded(
      disk: Disk, sorted: seq<Generation>, current: Generation, live: set<FileName>, ghost gs: set<Generation>)
    requires disk.Valid()
    requires forall i | 0 <= i < |sorted| ::
      sorted[i] in gs <==> i >= RETAINED_GENERATIONS && sorted[i] != current && MetadataFile(sorted[i]) !in live
    modifies disk
    ensures disk.Valid() && OnlyMissing(old(disk.files), disk.files, gs)
    ensures forall i | 0 <= i < |sorted| && sorted[i] in gs ::
      IndexFile(sorted[i]) !in disk.files && MetadataFile(sorted[i]) !in disk.files
    ensures old(disk.history) <= disk.history
    ensures forall h <- disk.history[|old(disk.history)|..] :: OnlyMissing(old(disk.files), h, gs)
  {
    ghost var before, past := disk.files, disk.history;
    var i := RETAINED_GENERATIONS;
    while i < |sorted|
      invariant RETAINED_GENERATIONS <= i && disk.Valid()
      invariant OnlyMissing(before, disk.files, gs)
      invariant forall j | 0 <= j < i && j < |sorted| && sorted[j] in gs ::
        IndexFile(sorted[j]) !in disk.files && MetadataFile(sorted[j]) !in disk.files
      invariant past <= disk.history
      invariant forall h <- disk.history[|past|..] :: OnlyMissing(before, h, gs)
    {
      var g := sorted[i];
      if g != current && MetadataFile(g) !in live {
        ghost var seen := disk.history;
        DeleteGeneration(disk, g, before, gs);
        assert disk.history[|past|..] == seen[|past|..] + disk.history[|seen|..];
      }
      i := i + 1;
    }
  }

  /** `_prune_generations`: deletes exactly the files of superseded generations, and at no moment anything else. */
  method PruneGenerations(disk: Disk, current: Generation, live: set<FileName>)
    requires disk.Valid()
    modifies disk
    ensures disk.Valid()
    ensures
      var gs := Superseded(PublishedOn(old(disk.files), current.fingerprint), current, live);
      && OnlyMissing(old(disk.files), disk.files, gs)
      && (forall name :: FileOf(name, gs) ==> name !in disk.files)
      && old(disk.history) <= disk.history
      && (forall h <- disk.history[|old(disk.history)|..] :: OnlyMissing(old(disk.files), h, gs))
  {
    var published := PublishedOn(disk.files, current.fingerprint);
    ghost var gs := Superseded(published, current, live);
    var sorted := SortNewestFirst(published, current.fingerprint);
    forall i | 0 <= i < |sorted|
      ensures sorted[i] in gs <==> i >= RETAINED_GENERATIONS && sorted[i] != current && MetadataFile(sorted[i]) !in live
    {
      RankIsPosition(sorted, published, i);
      assert sorted[i] in published;
    }
    DeleteSuperseded(disk, sorted, current, live, gs);
    forall name | FileOf(name, gs) ensures name !in disk.files {
      var j :| 0 <= j < |sorted| && sorted[j] == name.generation;
    }
  }

  // ----- Publication -----

  /** Both disks hold the same manifest, or none, and agree on the two files it names. */
  ghost predicate SameGeneration(a: Files, b: Files) {
    && (ManifestFile in a <==> ManifestFile in b)
    && (ManifestFile in a ==>
          && a[ManifestFile] == b[ManifestFile]
          && (a[ManifestFile].Json? ==>
                && SameFile(a, b, a[ManifestFile].manifest.indexFile)
                && SameFile(a, b, a[ManifestFile].manifest.metadataFile)))
  }

  /** The disk's manifest is the one published for this state, beside exactly the bytes it was published with. */
  ghost predicate Carries(c: Codec, files: Files, s: FrozenState, header: Header, g: Generation) {
    && s.Publishable()
    && ManifestFile in files && files[ManifestFile].Json?
    && var m := files[ManifestFile].manifest;
    && var index, metadata := c.encodeIndex(s.entries), Join(Lines(c, s.keys, s.candidates));
    && Recorded(s.keys, Lines(c, s.keys, s.candidates), m.offsets)
    && m == ManifestOf(s, header, g, |index|, |metadata|, m.offsets)
    && Holds(files, m, index, metadata)
  }

  /** Whatever a disk carries is loaded back: the ids, keys, active ids, revisions and vectors of the state at its
      own epoch or at any epoch asked for, and each key's metadata through its offset. */
  lemma CarriesLoads(c: Codec, files: Files, s: FrozenState, header: Header, g: Generation, epoch: Option<nat>)
    requires c.Lawful() && Carries(c, files, s, header, g)
    requires g.epoch == s.epoch && g.fingerprint == header.buildFingerprint
    ensures
      var offsets := files[ManifestFile].manifest.offsets;
      && LoadSpec(c, files, header, epoch)
         == (if epoch.None? || epoch.value == s.epoch
             then Some(Loaded(s.epoch, s.ids, s.keys, s.active, s.revisions, s.entries, MetadataFile(g), offsets))
             else None)
      && MetadataFile(g) in files && files[MetadataFile(g)].Blob?
      && forall key :: ReadMetadata(c, files[MetadataFile(g)].bytes, offsets, key)
                       == Ok(if key in s.keys then Some(s.candidates[key]) else None)
  {
    var m, metadata := files[ManifestFile].manifest, Join(Lines(c, s.keys, s.candidates));
    LoadReturnsPublished(c, files, s, header, g, m.offsets, metadata, epoch);
    forall key
      ensures ReadMetadata(c, metadata, m.offsets, key) == Ok(if key in s.keys then Some(s.candidates[key]) else None)
    {
      SidecarRoundTrip(c, s.keys, s.candidates, m.offsets, key);
    }
  }

  /** No file has this generation's names, and no manifest refers to them. */
  ghost predicate Unused(files: Files, g: Generation) {
    && IndexFile(g) !in files && MetadataFile(g) !in files
    && (ManifestFile in files && files[ManifestFile].Json? ==>
          && files[ManifestFile].manifest.indexFile != IndexFile(g)
          && files[ManifestFile].manifest.metadataFile != MetadataFile(g)
          && files[ManifestFile].manifest.indexFile != MetadataFile(g)
          && files[ManifestFile].manifest.metadataFile != IndexFile(g))
  }

  /** Every content of the disk since `past` carries the state or still holds the old generation. */
  ghost predicate OldOrNew(
    c: Codec, past: seq<Files>, history: seq<Files>, before: Files, s: FrozenState, header: Header, g: Generation)
  {
    && past <= history
    && forall h <- history[|past|..] :: SameGeneration(before, h) || Carries(c, h, s, header, g)
  }

  /** The three writes of `_persist_state`, in this order: index file, sidecar, manifest. */
  method WriteGeneration(c: Codec, disk: Disk, s: FrozenState, header: Header, g: Generation)
    requires disk.Valid() && s.Publishable() && Unused(disk.files, g)
    modifies disk
    ensures disk.Valid() && Carries(c, disk.files, s, header, g)
    ensures
      var withIndex := old(disk.files)[IndexFile(g) := Blob(c.encodeIndex(s.entries))];
      var withMetadata := withIndex[MetadataFile(g) := Blob(Join(Lines(c, s.keys, s.candidates)))];
      && disk.history == old(disk.history) + [withIndex, withMetadata, disk.files]
      && disk.files == withMetadata[ManifestFile := disk.files[ManifestFile]]
    ensures OldOrNew(c, old(disk.history), disk.history, old(disk.files), s, header, g)
    ensures forall h :: h != g && Unused(old(disk.files), h) ==> Unused(disk.files, h)
    ensures forall name :: name in old(disk.files) && name != ManifestFile ==>
      name in disk.files && disk.files[name] == old(disk.files)[name]
  {
    ghost var before, past := disk.files, disk.history;
    var index := c.encodeIndex(s.entries);
    var metadata, offsets := WriteMetadata(c, s.keys, s.candidates);
    disk.Write(IndexFile(g), Blob(index));
    ghost var afterIndex := disk.files;
    disk.Write(MetadataFile(g), Blob(metadata));
    ghost var afterMetadata := disk.files;
    disk.Write(ManifestFile, Json(ManifestOf(s, header, g, |index|, |metadata|, offsets)));
    UnusedNames(before, g, Blob(index), Blob(metadata));
    OthersStayUnused(before, g, Blob(index), Blob(metadata), disk.files[ManifestFile].manifest);
    assert disk.history == past + [afterIndex, afterMetadata, disk.files];
    OldThenNew(c, past, [afterIndex, afterMetadata], before, disk.files, s, header, g);
  }

  lemma OldThenNew(
      c: Codec, past: seq<Files>, between: seq<Files>, before: Files, after: Files, s: FrozenState, header: Header,
      g: Generation)
    requires (forall h <- between :: SameGeneration(before, h)) && Carries(c, after, s, header, g)
    ensures OldOrNew(c, past, past + between + [after], before, s, header, g)
  {
    assert (past + between + [after])[|past|..] == between + [after];
  }

  /** Files under names nothing on the disk refers to change no generation. */
  lemma UnusedNames(files: Files, g: Generation, index: File, metadata: File)
    requires Unused(files, g)
    ensures SameGeneration(files, files[IndexFile(g) := index])
    ensures SameGeneration(files, files[IndexFile(g) := index][MetadataFile(g) := metadata])
  {
  }

  lemma OthersStayUnused(files: Files, g: Generation, index: File, metadata: File, m: Manifest)
    requires m.indexFile == IndexFile(g) && m.metadataFile == MetadataFile(g)
    ensures
      var after := files[IndexFile(g) := index][MetadataFile(g) := metadata][ManifestFile := Json(m)];
      forall h :: h != g && Unused(files, h) ==> Unused(after, h)
  {
  }

  /** `_persist_state` after serialising: index file, sidecar, manifest, prune, in this order. A crash between any two
      disk operations leaves a disk that loads as the previous generation or as exactly this state, and no moment
      of it loses a sidecar a cached state reads. */
  method PersistState(c: Codec, disk: Disk, s: FrozenState, header: Header, time: nat, live: set<FileName>)
    requires disk.Valid() && s.Publishable()
    requires Unused(disk.files, Generation(s.epoch, header.buildFingerprint, time))
    modifies disk
    ensures disk.Valid()
    ensures
      var g := Generation(s.epoch, header.buildFingerprint, time);
      && OldOrNew(c, old(disk.history), disk.history, old(disk.files), s, header, g)
      && Carries(c, disk.files, s, header, g)
      && (forall h :: h != g && Unused(old(disk.files), h) ==> Unused(disk.files, h))
    ensures forall name <- live :: name.MetadataFile? && name in old(disk.files) ==>
      name in disk.files && disk.files[name] == old(disk.files)[name]
  {
    var g := Generation(s.epoch, header.buildFingerprint, time);
    ghost var before, past := disk.files, disk.history;
    WriteGeneration(c, disk, s, header, g);
    ghost var published, soFar := disk.files, disk.history;
    PruneGenerations(disk, g, live);
    ghost var gs := Superseded(PublishedOn(published, g.fingerprint), g, live);
    forall h | h in disk.history[|soFar|..] ensures Carries(c, h, s, header, g) {
      CurrentSurvives(c, published, h, gs, s, header, g);
    }
    CurrentSurvives(c, published, disk.files, gs, s, header, g);
    assert disk.history[|past|..] == soFar[|past|..] + disk.history[|soFar|..];
    LiveSidecarsSurvive(published, disk.files, gs, live);
    PruningFreesNames(published, disk.files, gs);
  }

  lemma LiveSidecarsSurvive(published: Files, after: Files, gs: set<Generation>, live: set<FileName>)
    requires OnlyMissing(published, after, gs)
    requires forall g <- gs :: MetadataFile(g) !in live
    ensures forall name <- live :: name.MetadataFile? && name in published ==>
      name in after && after[name] == published[name]
  {
  }

  lemma PruningFreesNames(published: Files, after: Files, gs: set<Generation>)
    requires OnlyMissing(published, after, gs)
    ensures forall h :: Unused(published, h) ==> Unused(after, h)
  {
  }

  lemma CurrentSurvives(
      c: Codec, published: Files, h: Files, gs: set<Generation>, s: FrozenState, header: Header, g: Generation)
    requires Carries(c, published, s, header, g) && OnlyMissing(published, h, gs) && g !in gs
    ensures Carries(c, h, s, header, g)
  {
    assert !FileOf(ManifestFile, gs) && !FileOf(IndexFile(g), gs) && !FileOf(MetadataFile(g), gs);
  }

  /** One publication of a run. */
  datatype Publication = Publication(state: FrozenState, time: nat, live: set<FileName>)
  {
    function Named(header: Header): Generation {
      Generation(state.epoch, header.buildFingerprint, time)
    }
  }

  /** The disk loads as before the run, or as one of the states the run publishes. */
  ghost predicate Recoverable(c: Codec, h: Files, before: Files, header: Header, run: seq<Publication>) {
    SameGeneration(before, h) || exists i :: 0 <= i < |run| && Carries(c, h, run[i].state, header, run[i].Named(header))
  }

  ghost predicate AllRecoverable(c: Codec, hs: seq<Files>, before: Files, header: Header, run: seq<Publication>) {
    forall h <- hs :: Recoverable(c, h, before, header, run)
  }

  /** Any run of publications by one publisher, cut off by a crash at any moment: the disk loads as it did before the
      run, or as exactly one of the published states. */
  method PublishAll(c: Codec, disk: Disk, header: Header, run: seq<Publication>)
    requires disk.Valid() && forall p <- run :: p.state.Publishable()
    requires forall i, j :: 0 <= i < j < |run| ==> run[i].Named(header) != run[j].Named(header)
    requires forall p <- run :: Unused(disk.files, p.Named(header))
    modifies disk
    ensures disk.Valid() && old(disk.history) <= disk.history
    ensures AllRecoverable(c, disk.history[|old(disk.history)|..], old(disk.files), header, run)
    ensures run != [] ==> Carries(c, disk.files, run[|run| - 1].state, header, run[|run| - 1].Named(header))
  {
    ghost var before, past := disk.files, disk.history;
    for i := 0 to |run|
      invariant forall j :: i <= j < |run| ==> Unused(disk.files, run[j].Named(header))
      invariant disk.Valid() && past <= disk.history
      invariant i == 0 ==> disk.files == before
      invariant i > 0 ==> Carries(c, disk.files, run[i - 1].state, header, run[i - 1].Named(header))
      invariant AllRecoverable(c, disk.history[|past|..], before, header, run)
    {
      ghost var start, soFar := disk.files, disk.history;
      assert run[i] in run;
      PersistState(c, disk, run[i].state, header, run[i].time, run[i].live);
      StepRecoverable(c, soFar, disk.history, before, start, header, run, i);
      ConcatRecoverable(c, past, soFar, disk.history, before, header, run);
    }
  }

  lemma ConcatRecoverable(
      c: Codec, past: seq<Files>, soFar: seq<Files>, history: seq<Files>, before: Files, header: Header,
      run: seq<Publication>)
    requires past <= soFar <= history
    requires AllRecoverable(c, soFar[|past|..], before, header, run)
    requires AllRecoverable(c, history[|soFar|..], before, header, run)
    ensures AllRecoverable(c, history[|past|..], before, header, run)
  {
    assert history[|past|..] == soFar[|past|..] + history[|soFar|..];
  }

  lemma StepRecoverable(
      c: Codec, past: seq<Files>, history: seq<Files>, before: Files, start: Files, header: Header,
      run: seq<Publication>, i: nat)
    requires i < |run| && OldOrNew(c, past, history, start, run[i].state, header, run[i].Named(header))
    requires i == 0 ==> start == before
    requires i > 0 ==> Carries(c, start, run[i - 1].state, header, run[i - 1].Named(header))
    ensures AllRecoverable(c, history[|past|..], before, header, run)
  {
    forall h | h in history[|past|..] ensures Recoverable(c, h, before, header, run) {
      if !Carries(c, h, run[i].state, header, run[i].Named(header)) && i > 0 {
        SameGenerationCarries(c, start, h, run[i - 1].state, header, run[i - 1].Named(header));
      }
    }
  }

  lemma SameGenerationCarries(c: Codec, a: Files, b: Files, s: FrozenState, header: Header, g: Generation)
    requires SameGeneration(a, b) && Carries(c, a, s, header, g)
    ensures Carries(c, b, s, header, g)
  {
  }
}
