/** Exact search over a resident index whose tombstones are still in it (searchkernel/indices/faiss_local.py).
    For one query a flat index ranks every resident vector; a search for n of them returns the n first. */
module FaissSearch {
  import opened Base
  import opened VectorFilter
  import opened TopK

  datatype Scored = Scored(id: int, score: real)

  /** The searched state: live identifiers with their keys and candidates, and the index's ranking for one query,
      live and tombstoned identifiers alike. */
  datatype Searched = Searched(
    ids: seq<int>,
    keys: seq<string>,
    idToKey: map<int, string>,
    candidates: map<string, Attributes>,
    active: set<int>,
    ranking: seq<Scored>,
    fromDisk: bool)
  {
    ghost predicate WellFormed() {
      && |ids| == |keys| && Distinct(ids)
      && (forall i | 0 <= i < |ids| :: ids[i] in idToKey && idToKey[ids[i]] == keys[i] && keys[i] in candidates)
      && (forall id :: id in idToKey ==> exists i :: 0 <= i < |ids| && ids[i] == id)
      && (forall id, other :: id in idToKey && other in idToKey && idToKey[id] == idToKey[other] ==> id == other)
      && (forall id :: id in idToKey ==> idToKey[id] in candidates)
      && (forall id :: id in idToKey ==> candidates[idToKey[id]].status in STATUSES)
      && (forall id :: id in active <==> id in idToKey && candidates[idToKey[id]].status == "active")
      && (forall i, j :: 0 <= i < j < |ranking| ==> ranking[i].id != ranking[j].id)
      && (forall id :: id in idToKey ==> exists e <- ranking :: e.id == id)
    }

    /** Live, and the predicate matches its record. */
    predicate Eligible(p: CompiledFilter, id: int)
      requires id in idToKey ==> idToKey[id] in candidates
    {
      id in idToKey && p.Matches(idToKey[id], candidates[idToKey[id]])
    }
  }

  const STATUSES := {"active", "stale", "archived"}

  // ----- Which identifiers are eligible -----

  predicate Unrestricted(p: CompiledFilter) {
    p.workspaceId.None? && p.sourceKinds.None? && p.candidateKeys.None? && p.excludedKeys.None? && !p.RequiresMetadata()
  }

  /** `_id_only_filter`: whether identifiers alone decide, and the identifiers allowed, if not all. */
  function IdOnlyFilter(s: Searched, p: CompiledFilter): (bool, Option<set<int>>) {
    if !Unrestricted(p) then (false, None)
    else if p.statuses == {"active"} then (true, Some(s.active))
    else if p.statuses == STATUSES then (true, None)
    else (false, None)
  }

  /** `_canonical_scalar_filter_key`. */
  function ScalarFilterKey(p: CompiledFilter): Option<(string, string)> {
    if p.workspaceId.None? || p.sourceKinds.None? || |p.sourceKinds.value| != 1 || p.statuses != {"active"}
       || p.candidateKeys.Some? || p.excludedKeys.Some? || p.RequiresMetadata()
    then None
    else
      var kind := OnlyMember(p.sourceKinds.value);
      Some((p.workspaceId.value, kind))
  }

  lemma SingletonMembers(s: set<string>, a: string, b: string)
    requires |s| == 1 && a in s && b in s
    ensures a == b
  {
    if a != b {
      SubsetCardinality({a, b}, s);
    }
  }

  /** `next(iter(s))` of a singleton. */
  function OnlyMember(s: set<string>): (kind: string)
    requires |s| == 1
    ensures s == {kind}
  {
    assert exists kind :: kind in s by { var _ := Member(s); }
    assert forall a, b | a in s && b in s :: a == b by {
      forall a, b | a in s && b in s ensures a == b {
        SingletonMembers(s, a, b);
      }
    }
    var kind :| kind in s;
    assert s == {kind};
    kind
  }

  /** What one scalar mask has to hold. */
  ghost predicate IsMask(s: Searched, key: (string, string), mask: set<int>) {
    forall id :: id in mask <==>
      && id in s.idToKey && s.idToKey[id] in s.candidates
      && s.candidates[s.idToKey[id]].workspaceId == Some(key.0)
      && s.candidates[s.idToKey[id]].sourceKind == key.1
      && s.candidates[s.idToKey[id]].status == "active"
  }

  /** The masks a state remembers, one per workspace and source kind. */
  class EligibilityMasks {
    const state: Searched
    var masks: map<(string, string), set<int>>

    ghost predicate Valid()
      reads this
    {
      state.WellFormed() && forall key :: key in masks ==> IsMask(state, key, masks[key])
    }

    constructor (state: Searched)
      requires state.WellFormed()
      ensures Valid() && this.state == state && masks == map[]
    {
      this.state, masks := state, map[];
    }

    /** `_eligibility_mask`: no mask for predicates of another shape, else the remembered or a new one. */
    method Mask(p: CompiledFilter) returns (r: Option<set<int>>)
      requires Valid()
      modifies this
      ensures Valid()
      ensures r.None? <==> ScalarFilterKey(p).None?
      ensures r.Some? ==> IsMask(state, ScalarFilterKey(p).value, r.value)
    {
      var shape := ScalarFilterKey(p);
      if shape.None? {
        return None;
      }
      var key := shape.value;
      if key in masks {
        return Some(masks[key]);
      }
      var eligible := {};
      for i := 0 to |state.ids|
        invariant forall id :: id in eligible <==>
          exists j :: 0 <= j < i && state.ids[j] == id
            && state.candidates[state.keys[j]].workspaceId == Some(key.0)
            && state.candidates[state.keys[j]].sourceKind == key.1
            && state.candidates[state.keys[j]].status == "active"
      {
        var a := state.candidates[state.keys[i]];
        if a.workspaceId == Some(key.0) && a.sourceKind == key.1 && a.status == "active" {
          eligible := eligible + {state.ids[i]};
        }
      }
      masks := masks[key := eligible];
      return Some(eligible);
    }
  }

  /** A mask selects exactly the identifiers the generic predicate matches. */
  lemma MaskIsPredicate(s: Searched, p: CompiledFilter, mask: set<int>)
    requires s.WellFormed() && ScalarFilterKey(p).Some? && IsMask(s, ScalarFilterKey(p).value, mask)
    ensures forall id :: id in mask <==> s.Eligible(p, id)
  {
  }

  /** The identifier-only shortcut selects exactly the identifiers the generic predicate matches. */
  lemma IdOnlyIsPredicate(s: Searched, p: CompiledFilter)
    requires s.WellFormed() && IdOnlyFilter(s, p).0
    ensures forall id ::
      s.Eligible(p, id) <==> id in s.idToKey && (IdOnlyFilter(s, p).1.Some? ==> id in IdOnlyFilter(s, p).1.value)
  {
  }

  /** `_validated_storage_keys`: the eligible identifiers among the returned ones, by whichever of the three ways
      applies: an identifier set, no check at all, or the candidate's metadata. */
  method ValidatedKeys(s: Searched, returned: seq<Scored>, p: CompiledFilter, readMetadata: bool, eligible: Option<set<int>>)
    returns (valid: map<int, string>)
    requires s.WellFormed()
    requires eligible.Some? ==> forall id :: id in s.idToKey ==> (id in eligible.value <==> s.Eligible(p, id))
    requires eligible.None? && !readMetadata ==> forall id :: id in s.idToKey ==> s.Eligible(p, id)
    ensures forall id :: id in valid <==> s.Eligible(p, id) && exists e <- returned :: e.id == id
    ensures forall id :: id in valid ==> id in s.idToKey && valid[id] == s.idToKey[id]
  {
    valid := map[];
    for i := 0 to |returned|
      invariant forall id :: id in valid <==> s.Eligible(p, id) && exists e <- returned[..i] :: e.id == id
      invariant forall id :: id in valid ==> id in s.idToKey && valid[id] == s.idToKey[id]
    {
      assert returned[..i + 1] == returned[..i] + [returned[i]];
      var id := returned[i].id;
      if id in s.idToKey {
        assert s.idToKey[id] in s.candidates;
        var ok := if eligible.Some? then id in eligible.value
                  else if !readMetadata then true
                  else p.Matches(s.idToKey[id], s.candidates[s.idToKey[id]]);
        if ok {
          valid := valid[id := s.idToKey[id]];
        }
      }
    }
    assert returned[..|returned|] == returned;
  }

  // ----- The scan -----

  /** The eligible residents of a ranking, as hits in score order. */
  function EligibleHits(s: Searched, p: CompiledFilter, ranking: seq<Scored>): seq<Hit>
    requires s.WellFormed()
  {
    if ranking == [] then []
    else
      var n := |ranking| - 1;
      EligibleHits(s, p, ranking[..n])
      + (if s.Eligible(p, ranking[n].id) then [Hit(s.idToKey[ranking[n].id], ranking[n].score)] else [])
  }

  lemma {:induction false} EligibleHitKeys(s: Searched, p: CompiledFilter, ranking: seq<Scored>)
    requires s.WellFormed()
    ensures forall h <- EligibleHits(s, p, ranking) ::
      exists e <- ranking :: s.Eligible(p, e.id) && h == Hit(s.idToKey[e.id], e.score)
    ensures forall e <- ranking :: s.Eligible(p, e.id) ==>
      Hit(s.idToKey[e.id], e.score) in EligibleHits(s, p, ranking)
  {
    if ranking != [] {
      var n := |ranking| - 1;
      assert ranking == ranking[..n] + [ranking[n]];
      EligibleHitKeys(s, p, ranking[..n]);
    }
  }

  lemma {:induction false} EligibleGrows(s: Searched, p: CompiledFilter, ranking: seq<Scored>, m: nat)
    requires s.WellFormed() && m <= |ranking|
    ensures EligibleHits(s, p, ranking[..m]) <= EligibleHits(s, p, ranking)
    ensures |EligibleHits(s, p, ranking)| <= |EligibleHits(s, p, ranking[..m])| + (|ranking| - m)
    decreases |ranking|
  {
    if m < |ranking| {
      var n := |ranking| - 1;
      EligibleGrows(s, p, ranking[..n], m);
      assert ranking[..n][..m] == ranking[..m];
    } else {
      assert ranking[..m] == ranking;
    }
  }

  predicate HasKey(found: seq<Hit>, key: string) {
    exists h <- found :: h.key == key
  }

  /** What earlier rounds found is skipped by key; the scan goes on behind it. */
  lemma FoundByKey(s: Searched, p: CompiledFilter, m: nat, j: nat)
    requires s.WellFormed() && m <= |s.ranking| && j < |s.ranking| && s.Eligible(p, s.ranking[j].id)
    ensures HasKey(EligibleHits(s, p, s.ranking[..m]), s.idToKey[s.ranking[j].id]) <==> j < m
  {
    EligibleHitKeys(s, p, s.ranking[..m]);
    var key := s.idToKey[s.ranking[j].id];
    if j < m {
      assert s.ranking[..m][j] == s.ranking[j];
    } else {
      forall h | h in EligibleHits(s, p, s.ranking[..m]) ensures h.key != key {
        var e :| e in s.ranking[..m] && s.Eligible(p, e.id) && h == Hit(s.idToKey[e.id], e.score);
        var i :| 0 <= i < m && s.ranking[i] == e;
        assert s.ranking[i].id != s.ranking[j].id;
      }
    }
  }

  /** One pass over the returned identifiers: up to k hits, in ranking order, earlier ones skipped. */
  method CollectHits(s: Searched, p: CompiledFilter, valid: map<int, string>, start: seq<Hit>, k: nat, scan: nat, ghost m0: nat)
    returns (found: seq<Hit>, ghost m: nat)
    requires s.WellFormed() && m0 <= scan <= |s.ranking|
    requires start == EligibleHits(s, p, s.ranking[..m0]) && |start| < k
    requires forall i | 0 <= i < scan :: s.ranking[i].id in valid <==> s.Eligible(p, s.ranking[i].id)
    requires forall id :: id in valid ==> id in s.idToKey && valid[id] == s.idToKey[id]
    ensures m <= scan && found == EligibleHits(s, p, s.ranking[..m])
    ensures |found| <= k && (|found| < k ==> m == scan)
  {
    found, m := start, m0;
    for j := 0 to scan
      invariant m == (if j <= m0 then m0 else j) && found == EligibleHits(s, p, s.ranking[..m])
      invariant |found| < k
    {
      var id := s.ranking[j].id;
      if id in valid {
        FoundByKey(s, p, m, j);
      }
      if j >= m0 {
        assert s.ranking[..j + 1][..j] == s.ranking[..j];
        m := j + 1;
      }
      if id in valid && !HasKey(found, valid[id]) {
        found := found + [Hit(valid[id], s.ranking[j].score)];
        if |found| >= k {
          return;
        }
      }
    }
  }

  function EligibleIds(s: Searched, p: CompiledFilter, ranking: seq<Scored>): set<int>
    requires s.WellFormed()
  {
    if ranking == [] then {}
    else
      var n := |ranking| - 1;
      EligibleIds(s, p, ranking[..n]) + (if s.Eligible(p, ranking[n].id) then {ranking[n].id} else {})
  }

  lemma {:induction false} EligibleIdMembers(s: Searched, p: CompiledFilter, ranking: seq<Scored>)
    requires s.WellFormed()
    ensures forall id :: id in EligibleIds(s, p, ranking) <==> s.Eligible(p, id) && exists e <- ranking :: e.id == id
  {
    if ranking != [] {
      var n := |ranking| - 1;
      assert ranking == ranking[..n] + [ranking[n]];
      EligibleIdMembers(s, p, ranking[..n]);
    }
  }

  lemma {:induction false} EligibleCount(s: Searched, p: CompiledFilter, ranking: seq<Scored>)
    requires s.WellFormed()
    requires forall i, j :: 0 <= i < j < |ranking| ==> ranking[i].id != ranking[j].id
    ensures |EligibleHits(s, p, ranking)| == |EligibleIds(s, p, ranking)|
  {
    if ranking != [] {
      var n := |ranking| - 1;
      EligibleCount(s, p, ranking[..n]);
      EligibleIdMembers(s, p, ranking[..n]);
      assert ranking[n].id !in EligibleIds(s, p, ranking[..n]);
    }
  }

  /** When every live record is eligible, scanning k more than the tombstones leaves k live hits. */
  lemma EnoughAreLive(s: Searched, p: CompiledFilter, k: nat)
    requires s.WellFormed() && forall id :: id in s.idToKey ==> s.Eligible(p, id)
    ensures |s.ids| <= |s.ranking| && |EligibleHits(s, p, s.ranking)| == |s.ids|
    ensures |EligibleHits(s, p, s.ranking[..Min(k + (|s.ranking| - |s.ids|), |s.ranking|)])| >= Min(k, |s.ids|)
  {
    EligibleCount(s, p, s.ranking);
    EligibleIdMembers(s, p, s.ranking);
    var eligible := EligibleIds(s, p, s.ranking);
    assert eligible == Elements(s.ids) by {
      forall id ensures id in eligible <==> id in Elements(s.ids) {
        if id in s.ids {
          var e :| e in s.ranking && e.id == id;
        }
      }
    }
    DistinctCardinality(s.ids);
    EligibleGrows(s, p, s.ranking, 0);
    EligibleGrows(s, p, s.ranking, Min(k + (|s.ranking| - |s.ids|), |s.ranking|));
  }

  /** The scan rounds of `_search_state`: each round searches further down the ranking until k hits are found, the
      whole index was searched, or the rounds are spent. */
  method ScanRounds(s: Searched, p: CompiledFilter, k: nat, maxRounds: nat, firstScan: nat, readMetadata: bool, eligible: Option<set<int>>)
    returns (found: seq<Hit>, ghost m: nat)
    requires s.WellFormed() && 0 < k && 0 < maxRounds && firstScan <= |s.ranking|
    requires eligible.Some? ==> forall id :: id in s.idToKey ==> (id in eligible.value <==> s.Eligible(p, id))
    requires eligible.None? && !readMetadata ==> forall id :: id in s.idToKey ==> s.Eligible(p, id)
    ensures m <= |s.ranking| && found == EligibleHits(s, p, s.ranking[..m])
    ensures |found| <= k && (|found| < k ==> m >= firstScan)
  {
    found, m := [], 0;
    var scan := firstScan;
    var round := 0;
    while round < maxRounds
      invariant m <= scan <= |s.ranking| && firstScan <= scan
      invariant found == EligibleHits(s, p, s.ranking[..m]) && |found| < k
      invariant round == 0 || m >= firstScan
    {
      var valid := ValidatedKeys(s, s.ranking[..scan], p, readMetadata, eligible);
      ReturnedAreValid(s, p, valid, scan);
      found, m := CollectHits(s, p, valid, found, k, scan, m);
      if |found| >= k || scan >= |s.ranking| {
        break;
      }
      var doubled := if scan + 1 > scan * 2 then scan + 1 else scan * 2;
      scan := Min(|s.ranking|, doubled);
      round := round + 1;
    }
  }

  lemma ReturnedAreValid(s: Searched, p: CompiledFilter, valid: map<int, string>, scan: nat)
    requires s.WellFormed() && scan <= |s.ranking|
    requires forall id :: id in valid <==> s.Eligible(p, id) && exists e <- s.ranking[..scan] :: e.id == id
    ensures forall i | 0 <= i < scan :: s.ranking[i].id in valid <==> s.Eligible(p, s.ranking[i].id)
  {
    forall i | 0 <= i < scan ensures s.ranking[i].id in valid <==> s.Eligible(p, s.ranking[i].id) {
      assert s.ranking[..scan][i] == s.ranking[i] && s.ranking[i] in s.ranking[..scan];
    }
  }

  ghost predicate ByScore(ranking: seq<Scored>) {
    forall i, j :: 0 <= i < j < |ranking| ==> ranking[i].score >= ranking[j].score
  }

  ghost predicate Descending(hits: seq<Hit>) {
    forall i, j :: 0 <= i < j < |hits| ==> hits[i].score >= hits[j].score
  }

  lemma DescendingAppend(hits: seq<Hit>, last: Hit)
    requires Descending(hits) && forall h <- hits :: h.score >= last.score
    ensures Descending(hits + [last])
  {
    forall i, j | 0 <= i < j < |hits| + 1 ensures (hits + [last])[i].score >= (hits + [last])[j].score {
      assert hits[i] in hits;
    }
  }

  lemma {:induction false} EligibleByScore(s: Searched, p: CompiledFilter, ranking: seq<Scored>)
    requires s.WellFormed() && ByScore(ranking)
    ensures Descending(EligibleHits(s, p, ranking))
  {
    if ranking != [] {
      var n := |ranking| - 1;
      EligibleByScore(s, p, ranking[..n]);
      if s.Eligible(p, ranking[n].id) {
        EarlierScore(s, p, ranking);
        DescendingAppend(EligibleHits(s, p, ranking[..n]), Hit(s.idToKey[ranking[n].id], ranking[n].score));
      }
    }
  }

  lemma EarlierScore(s: Searched, p: CompiledFilter, ranking: seq<Scored>)
    requires s.WellFormed() && ByScore(ranking) && ranking != []
    ensures forall h <- EligibleHits(s, p, ranking[..|ranking| - 1]) :: h.score >= ranking[|ranking| - 1].score
  {
    var n := |ranking| - 1;
    EligibleHitKeys(s, p, ranking[..n]);
    forall h | h in EligibleHits(s, p, ranking[..n]) ensures h.score >= ranking[n].score {
      var e :| e in ranking[..n] && s.Eligible(p, e.id) && h == Hit(s.idToKey[e.id], e.score);
      var i :| 0 <= i < n && ranking[..n][i] == e;
      assert ranking[i] == e;
    }
  }

  /** No eligible resident left out scores higher than a hit. */
  ghost predicate NoneBetter(s: Searched, p: CompiledFilter, hits: seq<Hit>)
    requires s.WellFormed()
  {
    forall h <- hits, x <- EligibleHits(s, p, s.ranking) | x !in hits :: h.score >= x.score
  }

  lemma FirstAreBest(s: Searched, p: CompiledFilter, first: seq<Hit>, hits: seq<Hit>)
    requires s.WellFormed() && ByScore(s.ranking) && first <= EligibleHits(s, p, s.ranking)
    requires forall h :: h in hits <==> h in first
    ensures NoneBetter(s, p, hits)
  {
    var all := EligibleHits(s, p, s.ranking);
    EligibleByScore(s, p, s.ranking);
    assert forall q | 0 <= q < |first| :: all[q] == first[q] && first[q] in first;
    forall h, x | h in hits && x in all && x !in hits ensures h.score >= x.score {
      var i :| 0 <= i < |first| && first[i] == h;
      var j :| 0 <= j < |all| && all[j] == x;
      assert all[i] == h && i < j;
    }
  }

  /** `_search_state` for the exact strategy. However many rounds are allowed, the hits are the first ones of the
      ranking that are eligible; with filters there are min(k, eligible) of them, and without filters, when every
      live record is eligible, min(k, live). If the index ranks by score, no eligible resident left out scores
      higher. */
  method SearchState(s: Searched, p: CompiledFilter, k: nat, filtered: bool, maxRounds: nat, masks: EligibilityMasks)
    returns (hits: seq<Hit>, ghost first: seq<Hit>)
    requires s.WellFormed() && 0 < k && 0 < maxRounds && masks.Valid() && masks.state == s
    modifies masks
    ensures masks.Valid()
    ensures first <= EligibleHits(s, p, s.ranking) && |first| <= k && hits == SortHits(first)
    ensures filtered ==> |first| == Min(k, |EligibleHits(s, p, s.ranking)|)
    ensures (forall id :: id in s.idToKey ==> s.Eligible(p, id)) ==> |first| == Min(k, |s.ids|)
    ensures ByScore(s.ranking) ==> NoneBetter(s, p, hits)
  {
    if |s.keys| == 0 {
      NothingLive(s, p, s.ranking);
      return [], [];
    }
    var resident := |s.ranking|;
    var tombstones := if resident > |s.keys| then resident - |s.keys| else 0;
    var scan := if filtered then resident else Min(k + tombstones, resident);
    var idOnly := IdOnlyFilter(s, p);
    var eligible := idOnly.1;
    if !s.fromDisk && !idOnly.0 {
      eligible := masks.Mask(p);
    }
    EligibilityIsPredicate(s, p, eligible, idOnly.0);
    var found, m := ScanRounds(s, p, k, maxRounds, scan, !idOnly.0, eligible);
    first := found;
    HitCounts(s, p, k, m, scan);
    SortMembers(found);
    var sorted := SortHits(found);
    hits := sorted[..Min(k, |sorted|)];
    if ByScore(s.ranking) {
      FirstAreBest(s, p, first, hits);
    }
  }

  /** How many hits a scan of m residents yields. */
  lemma HitCounts(s: Searched, p: CompiledFilter, k: nat, m: nat, scan: nat)
    requires s.WellFormed() && m <= |s.ranking| && scan <= |s.ranking|
    requires |EligibleHits(s, p, s.ranking[..m])| <= k && (|EligibleHits(s, p, s.ranking[..m])| < k ==> m >= scan)
    ensures EligibleHits(s, p, s.ranking[..m]) <= EligibleHits(s, p, s.ranking)
    ensures scan == |s.ranking| ==>
      |EligibleHits(s, p, s.ranking[..m])| == Min(k, |EligibleHits(s, p, s.ranking)|)
    ensures (forall id :: id in s.idToKey ==> s.Eligible(p, id))
         && (scan == |s.ranking| || (|s.ranking| > |s.ids| && scan == k + |s.ranking| - |s.ids|)
             || (|s.ranking| <= |s.ids| && scan == k))
      ==> |EligibleHits(s, p, s.ranking[..m])| == Min(k, |s.ids|)
  {
    EligibleGrows(s, p, s.ranking, m);
    assert s.ranking[..|s.ranking|] == s.ranking;
    if forall id :: id in s.idToKey ==> s.Eligible(p, id) {
      EnoughAreLive(s, p, k);
      ScannedEnough(s, p, Min(k + (|s.ranking| - |s.ids|), |s.ranking|), m);
    }
  }

  lemma ScannedEnough(s: Searched, p: CompiledFilter, n: nat, m: nat)
    requires s.WellFormed() && n <= |s.ranking| && m <= |s.ranking|
    ensures n <= m ==> |EligibleHits(s, p, s.ranking[..n])| <= |EligibleHits(s, p, s.ranking[..m])|
  {
    if n <= m {
      EligibleGrows(s, p, s.ranking[..m], n);
      assert s.ranking[..m][..n] == s.ranking[..n];
    }
  }

  lemma {:induction false} NothingLive(s: Searched, p: CompiledFilter, ranking: seq<Scored>)
    requires s.WellFormed() && s.keys == []
    ensures EligibleHits(s, p, ranking) == []
  {
    if ranking != [] {
      NothingLive(s, p, ranking[..|ranking| - 1]);
    }
  }

  /** Whatever set of identifiers the search settles on, it selects what the predicate matches. */
  lemma EligibilityIsPredicate(s: Searched, p: CompiledFilter, eligible: Option<set<int>>, idOnly: bool)
    requires s.WellFormed() && idOnly == IdOnlyFilter(s, p).0
    requires eligible == IdOnlyFilter(s, p).1
      || (!idOnly && (eligible.None? || (ScalarFilterKey(p).Some? && IsMask(s, ScalarFilterKey(p).value, eligible.value))))
    ensures eligible.Some? ==> forall id :: id in s.idToKey ==> (id in eligible.value <==> s.Eligible(p, id))
    ensures eligible.None? && idOnly ==> forall id :: id in s.idToKey ==> s.Eligible(p, id)
  {
    if idOnly {
      IdOnlyIsPredicate(s, p);
    } else if eligible.Some? {
      MaskIsPredicate(s, p, eligible.value);
    }
  }
}
