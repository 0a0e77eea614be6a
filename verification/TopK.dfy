/** The k best hits, computed three ways in searchkernel/indices/local.py: by partition with ties, page by page with
    pruning, and with a bounded heap. All three return what sorting everything and taking k would. */
module TopK {
  import opened Base
  import opened VectorFilter

  datatype Hit = Hit(key: string, score: real)

  /** The order of results: score descending, storage key ascending. */
  predicate Better(a: Hit, b: Hit) {
    a.score > b.score || (a.score == b.score && KeyLess(a.key, b.key))
  }

  lemma BetterIsStrictOrder(a: Hit, b: Hit, c: Hit)
    ensures Better(a, b) ==> !Better(b, a) && a != b
    ensures Better(a, b) && Better(b, c) ==> Better(a, c)
    ensures a.key != b.key ==> Better(a, b) || Better(b, a)
  {
    if Better(a, b) && a.score == b.score {
      KeyLessAsymmetric(a.key, b.key);
      if Better(b, c) && b.score == c.score {
        KeyLessTransitive(a.key, b.key, c.key);
      }
    }
    KeyLessTotal(a.key, b.key);
  }

  ghost predicate Ordered(hits: seq<Hit>) {
    forall i, j :: 0 <= i < j < |hits| ==> Better(hits[i], hits[j])
  }

  ghost predicate DistinctHits(hits: seq<Hit>) {
    forall i, j :: 0 <= i < j < |hits| ==> hits[i].key != hits[j].key
  }

  function Min(a: nat, b: nat): nat { if a < b then a else b }

  // ----- Sort and take -----

  function Insert(sorted: seq<Hit>, h: Hit): seq<Hit> {
    if sorted == [] || Better(h, sorted[0]) then [h] + sorted else [sorted[0]] + Insert(sorted[1..], h)
  }

  /** `sorted(hits, key=lambda hit: (-hit.score, hit.storage_key))`. */
  function SortHits(hits: seq<Hit>): seq<Hit> {
    if hits == [] then [] else Insert(SortHits(hits[..|hits| - 1]), hits[|hits| - 1])
  }

  /** The reference: sort everything, take k. */
  function Top(hits: seq<Hit>, k: nat): seq<Hit> {
    SortHits(hits)[..Min(k, |SortHits(hits)|)]
  }

  lemma {:induction false} InsertMembers(sorted: seq<Hit>, h: Hit)
    ensures |Insert(sorted, h)| == |sorted| + 1
    ensures forall x :: x in Insert(sorted, h) <==> x in sorted || x == h
  {
    if sorted != [] && !Better(h, sorted[0]) {
      InsertMembers(sorted[1..], h);
      assert sorted == [sorted[0]] + sorted[1..];
    }
  }

  lemma {:induction false} InsertOrdered(sorted: seq<Hit>, h: Hit)
    requires Ordered(sorted) && forall x <- sorted :: x.key != h.key
    ensures Ordered(Insert(sorted, h))
  {
    if sorted != [] {
      forall i | 0 <= i < |sorted| ensures Better(h, sorted[0]) ==> Better(h, sorted[i]) {
        if i > 0 {
          BetterIsStrictOrder(h, sorted[0], sorted[i]);
        }
      }
      if !Better(h, sorted[0]) {
        assert sorted[0] in sorted;
        BetterIsStrictOrder(h, sorted[0], h);
        assert forall x <- sorted[1..] :: x in sorted;
        InsertOrdered(sorted[1..], h);
        InsertMembers(sorted[1..], h);
        var rest := Insert(sorted[1..], h);
        forall j | 0 <= j < |rest| ensures Better(sorted[0], rest[j]) {
          assert rest[j] in rest;
          if rest[j] != h {
            var i :| 0 <= i < |sorted[1..]| && sorted[1..][i] == rest[j];
            assert sorted[i + 1] == rest[j];
          }
        }
      }
    }
  }

  lemma {:induction false} SortMembers(hits: seq<Hit>)
    ensures |SortHits(hits)| == |hits|
    ensures forall x :: x in SortHits(hits) <==> x in hits
  {
    if hits != [] {
      var n := |hits| - 1;
      SortMembers(hits[..n]);
      InsertMembers(SortHits(hits[..n]), hits[n]);
      assert hits == hits[..n] + [hits[n]];
    }
  }

  lemma {:induction false} SortOrdered(hits: seq<Hit>)
    requires DistinctHits(hits)
    ensures Ordered(SortHits(hits))
  {
    if hits != [] {
      var n := |hits| - 1;
      SortOrdered(hits[..n]);
      SortMembers(hits[..n]);
      forall x | x in SortHits(hits[..n]) ensures x.key != hits[n].key {
        var i :| 0 <= i < n && hits[..n][i] == x;
        assert hits[i] == x;
      }
      InsertOrdered(SortHits(hits[..n]), hits[n]);
    }
  }

  /** What being the k best hits means, without saying how they are found. */
  ghost predicate IsTop(r: seq<Hit>, hits: seq<Hit>, k: nat) {
    && Ordered(r) && |r| == Min(k, |hits|)
    && (forall x <- r :: x in hits)
    && (forall x <- r, y <- hits | y !in r :: Better(x, y))
  }

  lemma TopIsTop(hits: seq<Hit>, k: nat)
    requires DistinctHits(hits)
    ensures IsTop(Top(hits, k), hits, k)
  {
    SortMembers(hits);
    SortOrdered(hits);
    var all, r := SortHits(hits), Top(hits, k);
    forall x | x in r ensures x in hits {
      var i :| 0 <= i < |r| && r[i] == x;
      assert all[i] in all;
    }
    forall x, y | x in r && y in hits && y !in r ensures Better(x, y) {
      var i :| 0 <= i < |r| && r[i] == x;
      assert y in all;
      var j :| 0 <= j < |all| && all[j] == y;
      assert forall m | 0 <= m < |r| :: r[m] in r && r[m] == all[m];
    }
  }

  lemma OrderedDistinct(hits: seq<Hit>)
    requires Ordered(hits)
    ensures Distinct(hits)
  {
    forall i, j | 0 <= i < j < |hits| ensures hits[i] != hits[j] {
      BetterIsStrictOrder(hits[i], hits[j], hits[i]);
    }
  }

  lemma {:induction false} OrderedUnique(a: seq<Hit>, b: seq<Hit>)
    requires Ordered(a) && Ordered(b) && forall x :: x in a <==> x in b
    ensures a == b
  {
    assert forall i | 0 <= i < |b| :: b[i] in a;
    assert b != [] ==> b[0] in a;
    if a != [] {
      assert a[0] in b && b != [] && b[0] in a;
      var i :| 0 <= i < |b| && b[i] == a[0];
      var j :| 0 <= j < |a| && a[j] == b[0];
      if i > 0 && j > 0 {
        BetterIsStrictOrder(b[0], a[0], b[0]);
        assert false;
      }
      OrderedDistinct(a);
      OrderedDistinct(b);
      assert a[0] == b[0];
      assert a == [a[0]] + a[1..] && b == [b[0]] + b[1..];
      forall x ensures x in a[1..] <==> x in b[1..] {
        assert x in a <==> x == a[0] || x in a[1..];
        assert x in b <==> x == b[0] || x in b[1..];
        assert a[0] !in a[1..] && b[0] !in b[1..];
      }
      OrderedUnique(a[1..], b[1..]);
    }
  }

  /** There is only one list of the k best hits. */
  lemma TopUnique(a: seq<Hit>, b: seq<Hit>, hits: seq<Hit>, k: nat)
    requires IsTop(a, hits, k) && IsTop(b, hits, k)
    ensures a == b
  {
    OrderedDistinct(a);
    OrderedDistinct(b);
    DistinctCardinality(a);
    DistinctCardinality(b);
    var as_, bs := Elements(a), Elements(b);
    if as_ != bs {
      if as_ <= bs {
        SubsetCardinality(as_, bs);
        assert false;
      }
      if bs <= as_ {
        SubsetCardinality(bs, as_);
        assert false;
      }
      var x :| x in as_ && x !in bs;
      var y :| y in bs && y !in as_;
      BetterIsStrictOrder(x, y, x);
      assert false;
    }
    assert forall x :: x in a <==> x in as_;
    assert forall x :: x in b <==> x in bs;
    OrderedUnique(a, b);
  }

  lemma TopFromIsTop(r: seq<Hit>, hits: seq<Hit>, k: nat)
    requires DistinctHits(hits) && IsTop(r, hits, k)
    ensures r == Top(hits, k)
  {
    TopIsTop(hits, k);
    TopUnique(r, Top(hits, k), hits, k);
  }

  // ----- Partition with ties -----

  /** What `argpartition` promises of the k rows it puts first: no other row scores higher than any of them. */
  ghost predicate IsPartition(partition: seq<Hit>, hits: seq<Hit>, k: nat) {
    && |partition| == k && Distinct(partition)
    && (forall x <- partition :: x in hits)
    && (forall x <- partition, y <- hits | y !in partition :: x.score >= y.score)
  }

  function LowestScore(hits: seq<Hit>): (r: real)
    requires hits != []
    ensures forall x <- hits :: x.score >= r
    ensures exists x <- hits :: x.score == r
  {
    var n := |hits| - 1;
    assert hits == hits[..n] + [hits[n]];
    if n == 0 then hits[0].score
    else
      var rest := LowestScore(hits[..n]);
      if hits[n].score < rest then hits[n].score else rest
  }

  /** `flatnonzero` of a condition on the score. */
  function Keep(hits: seq<Hit>, mask: real -> bool): (r: seq<Hit>)
    ensures forall x :: x in r <==> x in hits && mask(x.score)
    ensures DistinctHits(hits) ==> DistinctHits(r)
  {
    if hits == [] then []
    else
      var n := |hits| - 1;
      assert hits == hits[..n] + [hits[n]];
      var rest := Keep(hits[..n], mask);
      assert DistinctHits(hits) ==> forall x <- rest :: x in hits[..n] && x.key != hits[n].key;
      if mask(hits[n].score) then rest + [hits[n]] else rest
  }

  /** The candidates of `_select_top_positions`: everything above the k-th score, then ties by key up to k. */
  function Candidates(hits: seq<Hit>, k: nat, partition: seq<Hit>): seq<Hit>
    requires |hits| > k ==> partition != []
  {
    if |hits| <= k then hits
    else
      var threshold := LowestScore(partition);
      var above := Keep(hits, score => score > threshold);
      var ties := SortHits(Keep(hits, score => score == threshold));
      above + ties[..Min(if |above| < k then k - |above| else 0, |ties|)]
  }

  lemma DistinctHitsAreDistinct(hits: seq<Hit>)
    requires DistinctHits(hits)
    ensures Distinct(hits) && |Elements(hits)| == |hits|
  {
    forall i, j | 0 <= i < j < |hits| ensures hits[i] != hits[j] {
      assert hits[i].key != hits[j].key;
    }
    DistinctCardinality(hits);
  }

  /** Fewer than k rows lie above the k-th score, and at least k lie on or above it. */
  lemma ThresholdCounts(hits: seq<Hit>, k: nat, partition: seq<Hit>, above: seq<Hit>, ties: seq<Hit>)
    requires 0 < k && IsPartition(partition, hits, k) && DistinctHits(above) && DistinctHits(ties)
    requires forall x :: x in above <==> x in hits && x.score > LowestScore(partition)
    requires forall x :: x in ties <==> x in hits && x.score == LowestScore(partition)
    ensures |above| < k <= |above| + |ties|
  {
    var threshold := LowestScore(partition);
    assert exists x <- partition :: x.score == threshold;
    var lowest :| lowest in partition && lowest.score == threshold;
    DistinctHitsAreDistinct(above);
    DistinctHitsAreDistinct(ties);
    DistinctCardinality(partition);
    forall x | x in above ensures x in partition && x != lowest {
      assert x !in partition ==> lowest.score >= x.score;
    }
    SubsetCardinality(Elements(above), Elements(partition) - {lowest});
    SubsetCardinality(Elements(partition), Elements(above) + Elements(ties));
    assert |Elements(above) + Elements(ties)| <= |above| + |ties|;
  }

  /** A prefix of an ordered list keeps its best members. */
  lemma PrefixIsBest(sorted: seq<Hit>, n: nat)
    requires Ordered(sorted) && n <= |sorted|
    ensures forall x <- sorted[..n], y <- sorted | y !in sorted[..n] :: Better(x, y)
  {
    forall x, y | x in sorted[..n] && y in sorted && y !in sorted[..n] ensures Better(x, y) {
      var i :| 0 <= i < n && sorted[i] == x;
      var j :| 0 <= j < |sorted| && sorted[j] == y;
      assert forall m | 0 <= m < n :: sorted[m] in sorted[..n];
    }
  }

  /** The candidates are k distinct rows, each better than every row left out. */
  lemma CandidatesAreBest(hits: seq<Hit>, k: nat, partition: seq<Hit>)
    requires 0 < k < |hits| && DistinctHits(hits) && IsPartition(partition, hits, k)
    ensures
      var c := Candidates(hits, k, partition);
      && |c| == k && DistinctHits(c) && (forall x <- c :: x in hits)
      && forall x <- c, y <- hits | y !in c :: Better(x, y)
  {
    var threshold := LowestScore(partition);
    var above := Keep(hits, score => score > threshold);
    var tied := Keep(hits, score => score == threshold);
    var ties := SortHits(tied);
    ThresholdCounts(hits, k, partition, above, tied);
    SortMembers(tied);
    SortOrdered(tied);
    var room := k - |above|;
    var taken := ties[..room];
    assert Candidates(hits, k, partition) == above + taken;
    assert forall x <- taken :: x in ties;
    ConcatDistinct(hits, above, taken, threshold);
    ConcatIsBest(hits, above, ties, room, threshold);
  }

  lemma ConcatIsBest(hits: seq<Hit>, above: seq<Hit>, ties: seq<Hit>, room: nat, threshold: real)
    requires Ordered(ties) && room <= |ties|
    requires forall x :: x in above <==> x in hits && x.score > threshold
    requires forall x :: x in ties <==> x in hits && x.score == threshold
    ensures forall x <- above + ties[..room], y <- hits | y !in above + ties[..room] :: Better(x, y)
  {
    PrefixIsBest(ties, room);
    forall x, y | x in above + ties[..room] && y in hits && y !in above + ties[..room] ensures Better(x, y) {
      assert y !in above && y !in ties[..room];
    }
  }

  lemma ConcatDistinct(hits: seq<Hit>, above: seq<Hit>, taken: seq<Hit>, threshold: real)
    requires DistinctHits(hits) && DistinctHits(above) && Ordered(taken)
    requires forall x <- above :: x in hits && x.score > threshold
    requires forall x <- taken :: x in hits && x.score == threshold
    ensures DistinctHits(above + taken)
  {
    var c := above + taken;
    forall i, j | 0 <= i < j < |c| ensures c[i].key != c[j].key {
      assert c[i] in c && c[j] in c;
      if i >= |above| {
        BetterIsStrictOrder(c[i], c[j], c[i]);
      } else {
        assert c[i] in above;
      }
      if c[i].key == c[j].key {
        SameKeySameHit(hits, c[i], c[j]);
      }
    }
  }

  lemma SameKeySameHit(hits: seq<Hit>, x: Hit, y: Hit)
    requires DistinctHits(hits) && x in hits && y in hits && x.key == y.key
    ensures x == y
  {
  }

  lemma CandidatesHoldTop(hits: seq<Hit>, k: nat, partition: seq<Hit>)
    requires 0 < k && DistinctHits(hits) && (|hits| > k ==> IsPartition(partition, hits, k))
    ensures Top(Candidates(hits, k, partition), k) == Top(hits, k)
  {
    if |hits| > k {
      CandidatesAreBest(hits, k, partition);
      var c := Candidates(hits, k, partition);
      var r := Top(c, k);
      TopIsTop(c, k);
      SortMembers(c);
      assert r == SortHits(c);
      TopFromIsTop(r, hits, k);
    }
  }

  /** `_select_top_positions`: a hit stands for the row it scores. */
  method SelectTopPositions(hits: seq<Hit>, k: nat, partition: seq<Hit>) returns (selected: seq<Hit>)
    requires 0 < k && DistinctHits(hits) && (|hits| > k ==> IsPartition(partition, hits, k))
    ensures selected == Top(hits, k)
  {
    var ordered := SortHits(Candidates(hits, k, partition));
    CandidatesHoldTop(hits, k, partition);
    selected := ordered[..Min(k, |ordered|)];
  }

  // ----- Pruning as the hits arrive -----

  /** What is already out of the running stays out: pruning a prefix to k loses nothing. */
  lemma TopOfPruned(seen: seq<Hit>, more: seq<Hit>, k: nat)
    requires DistinctHits(seen + more)
    ensures DistinctHits(Top(seen, k) + more)
    ensures Top(Top(seen, k) + more, k) == Top(seen + more, k)
  {
    var all, kept := seen + more, Top(seen, k);
    PartsDistinct(seen, more);
    TopIsTop(seen, k);
    TopDistinct(seen, k);
    KeptDistinct(seen, more, kept);
    var pruned := kept + more;
    var r := Top(pruned, k);
    TopIsTop(pruned, k);
    forall x, y | x in r && y in all && y !in r ensures Better(x, y) {
      if y !in pruned {
        PrunedIsWorse(seen, more, kept, r, k, x, y);
      }
    }
    TopFromIsTop(r, all, k);
  }

  lemma TopDistinct(hits: seq<Hit>, k: nat)
    requires DistinctHits(hits)
    ensures DistinctHits(Top(hits, k))
  {
    TopIsTop(hits, k);
    var r := Top(hits, k);
    OrderedDistinct(r);
    forall i, j | 0 <= i < j < |r| ensures r[i].key != r[j].key {
      assert r[i] in r && r[j] in r;
      if r[i].key == r[j].key {
        SameKeySameHit(hits, r[i], r[j]);
      }
    }
  }

  /** The order in which hits arrive does not matter. */
  lemma TopOfSameHits(a: seq<Hit>, b: seq<Hit>, k: nat)
    requires DistinctHits(a) && DistinctHits(b) && forall x :: x in a <==> x in b
    ensures Top(a, k) == Top(b, k)
  {
    SortMembers(a);
    SortMembers(b);
    SortOrdered(a);
    SortOrdered(b);
    OrderedUnique(SortHits(a), SortHits(b));
  }

  lemma PartsDistinct(a: seq<Hit>, b: seq<Hit>)
    requires DistinctHits(a + b)
    ensures DistinctHits(a) && DistinctHits(b)
  {
    var all := a + b;
    assert forall i | 0 <= i < |a| :: all[i] == a[i];
    forall i, j | 0 <= i < j < |b| ensures b[i].key != b[j].key {
      assert all[|a| + i].key != all[|a| + j].key;
    }
  }

  lemma KeptDistinct(seen: seq<Hit>, more: seq<Hit>, kept: seq<Hit>)
    requires DistinctHits(seen + more) && DistinctHits(kept) && forall x <- kept :: x in seen
    ensures DistinctHits(kept + more)
  {
    var c := kept + more;
    PartsDistinct(seen, more);
    forall i, j | 0 <= i < j < |c| ensures c[i].key != c[j].key {
      if i < |kept| {
        assert c[i] in kept;
        var m :| 0 <= m < |seen| && seen[m] == c[i];
        assert (seen + more)[m] == c[i];
        if j >= |kept| {
          assert (seen + more)[|seen| + (j - |kept|)] == c[j];
        }
      }
    }
  }

  /** A hit that was pruned is worse than every hit kept in the end. */
  lemma PrunedIsWorse(
      seen: seq<Hit>, more: seq<Hit>, kept: seq<Hit>, r: seq<Hit>, k: nat, x: Hit, y: Hit)
    requires IsTop(kept, seen, k) && IsTop(r, kept + more, k)
    requires x in r && y in seen && y !in kept
    ensures Better(x, y)
  {
    if x !in kept {
      assert |kept| == k by {
        if |kept| < k {
          OrderedDistinct(kept);
          DistinctCardinality(kept);
          ElementsBound(seen);
          SubsetCardinality(Elements(kept) + {y}, Elements(seen));
        }
      }
      OrderedDistinct(r);
      DistinctCardinality(r);
      OrderedDistinct(kept);
      DistinctCardinality(kept);
      if Elements(kept) <= Elements(r) {
        SubsetCardinality(Elements(kept) + {x}, Elements(r));
        assert false;
      }
      var t :| t in Elements(kept) && t !in Elements(r);
      assert t in kept + more;
      BetterIsStrictOrder(x, t, y);
    }
  }

  lemma TopOfMerged(best: seq<Hit>, seen: seq<Hit>, more: seq<Hit>, k: nat)
    requires DistinctHits(seen + more) && DistinctHits(best) && (forall x <- best :: x in seen)
    requires Top(best, k) == Top(seen, k)
    ensures DistinctHits(best + more) && Top(best + more, k) == Top(seen + more, k)
  {
    KeptDistinct(seen, more, best);
    TopOfPruned(best, more, k);
    TopOfPruned(seen, more, k);
  }

  // ----- Page by page, over rows in key order -----

  /** One stored vector with its record and its score against the query. */
  datatype ScoredRow = ScoredRow(key: string, attributes: Attributes, score: real)

  ghost predicate KeyOrdered(rows: seq<ScoredRow>) {
    forall i, j :: 0 <= i < j < |rows| ==> KeyLess(rows[i].key, rows[j].key)
  }

  /** The hits of the rows a predicate matches. */
  function HitsOf(rows: seq<ScoredRow>, p: CompiledFilter): seq<Hit> {
    if rows == [] then []
    else
      var n := |rows| - 1;
      var rest := HitsOf(rows[..n], p);
      if p.Matches(rows[n].key, rows[n].attributes) then rest + [Hit(rows[n].key, rows[n].score)] else rest
  }

  lemma {:induction false} HitsMembers(rows: seq<ScoredRow>, p: CompiledFilter)
    ensures forall h :: h in HitsOf(rows, p) <==>
      exists row <- rows :: p.Matches(row.key, row.attributes) && h == Hit(row.key, row.score)
  {
    if rows != [] {
      var n := |rows| - 1;
      assert rows == rows[..n] + [rows[n]];
      HitsMembers(rows[..n], p);
    }
  }

  lemma {:induction false} HitsAppend(a: seq<ScoredRow>, b: seq<ScoredRow>, p: CompiledFilter)
    ensures HitsOf(a + b, p) == HitsOf(a, p) + HitsOf(b, p)
  {
    if b == [] {
      assert a + b == a;
    } else {
      var n := |b| - 1;
      HitsAppend(a, b[..n], p);
      assert (a + b)[..|a + b| - 1] == a + b[..n];
    }
  }

  lemma {:induction false} HitsDistinct(rows: seq<ScoredRow>, p: CompiledFilter)
    requires KeyOrdered(rows)
    ensures DistinctHits(HitsOf(rows, p))
  {
    if rows != [] {
      var n := |rows| - 1;
      HitsDistinct(rows[..n], p);
      var rest := HitsOf(rows[..n], p);
      forall i | 0 <= i < |rest| ensures rest[i].key != rows[n].key {
        assert rest[i] in rest;
        HitsMembers(rows[..n], p);
        var row :| row in rows[..n] && rest[i] == Hit(row.key, row.score);
        KeyLessAsymmetric(row.key, rows[n].key);
      }
    }
  }

  /** The rows of one page query that follow the cursor. */
  function Following(rows: seq<ScoredRow>, candidates: Option<set<string>>, last: Option<string>): seq<ScoredRow> {
    if rows == [] then []
    else
      var n := |rows| - 1;
      var rest := Following(rows[..n], candidates, last);
      if (candidates.Some? ==> rows[n].key in candidates.value) && (last.Some? ==> KeyLess(last.value, rows[n].key))
      then rest + [rows[n]] else rest
  }

  function Page(rows: seq<ScoredRow>, candidates: Option<set<string>>, last: Option<string>, limit: nat): seq<ScoredRow> {
    var following := Following(rows, candidates, last);
    following[..Min(limit, |following|)]
  }

  lemma {:induction false} FollowingOrdered(rows: seq<ScoredRow>, candidates: Option<set<string>>)
    requires KeyOrdered(rows)
    ensures KeyOrdered(Following(rows, candidates, None))
    ensures forall row :: row in Following(rows, candidates, None) <==>
      row in rows && (candidates.Some? ==> row.key in candidates.value)
  {
    if rows != [] {
      var n := |rows| - 1;
      assert rows == rows[..n] + [rows[n]];
      FollowingOrdered(rows[..n], candidates);
      var rest := Following(rows[..n], candidates, None);
      forall i | 0 <= i < |rest| ensures KeyLess(rest[i].key, rows[n].key) {
        assert rest[i] in rest;
        var j :| 0 <= j < n && rows[..n][j] == rest[i];
      }
    }
  }

  lemma {:induction false} FollowingSkips(rows: seq<ScoredRow>, candidates: Option<set<string>>, last: string)
    ensures Following(rows, candidates, Some(last)) == Following(Following(rows, candidates, None), None, Some(last))
  {
    if rows != [] {
      var n := |rows| - 1;
      FollowingSkips(rows[..n], candidates, last);
      var rest := Following(rows[..n], candidates, None);
      if candidates.Some? ==> rows[n].key in candidates.value {
        assert (rest + [rows[n]])[..|rest|] == rest;
      }
    }
  }

  lemma {:induction false} FollowingKey(rows: seq<ScoredRow>, i: nat)
    requires KeyOrdered(rows) && 0 < i <= |rows|
    ensures Following(rows, None, Some(rows[i - 1].key)) == rows[i..]
  {
    var n := |rows| - 1;
    if i == |rows| {
      FollowingNone(rows, rows[n].key);
    } else {
      FollowingKey(rows[..n], i);
      assert rows[..n][i..] + [rows[n]] == rows[i..];
    }
  }

  lemma {:induction false} FollowingNone(rows: seq<ScoredRow>, last: string)
    requires forall row <- rows :: row.key == last || KeyLess(row.key, last)
    ensures Following(rows, None, Some(last)) == []
  {
    if rows != [] {
      var n := |rows| - 1;
      assert rows[n] in rows;
      FollowingNone(rows[..n], last);
      if KeyLess(last, rows[n].key) {
        KeyLessAsymmetric(last, rows[n].key);
      }
    }
  }

  /** The library's partition, whatever it is. */
  type Partition = (seq<Hit>, nat) -> seq<Hit>

  ghost predicate Partitions(argpartition: Partition) {
    forall hits, k :: 0 < k < |hits| && DistinctHits(hits) ==> IsPartition(argpartition(hits, k), hits, k)
  }

  /** `best` stands for the hits seen so far: it holds their k best. */
  ghost predicate Represents(best: seq<Hit>, seen: seq<Hit>, k: nat) {
    DistinctHits(best) && (forall x <- best :: x in seen) && Top(best, k) == Top(seen, k)
  }

  /** One page joins the running best, which is pruned to k whenever it holds more. */
  method MergePage(best: seq<Hit>, more: seq<Hit>, k: nat, argpartition: Partition, ghost seen: seq<Hit>)
    returns (merged: seq<Hit>)
    requires 0 < k && Partitions(argpartition)
    requires Represents(best, seen, k) && DistinctHits(seen + more)
    ensures Represents(merged, seen + more, k)
  {
    TopOfMerged(best, seen, more, k);
    merged := best + more;
    if |merged| > k {
      ghost var before := merged;
      merged := SelectTopPositions(merged, k, argpartition(merged, k));
      TopDistinct(before, k);
      TopIsTop(before, k);
      TopOfPruned(before, [], k);
      assert before + [] == before && merged + [] == merged;
    }
  }

  /** `_search_vector_blocks`: pages of at most `limit` rows, each merged into the running best. */
  method SearchVectorBlocks(
      rows: seq<ScoredRow>, p: CompiledFilter, k: nat, limit: nat, argpartition: Partition)
    returns (best: seq<Hit>)
    requires 0 < k && 0 < limit && KeyOrdered(rows) && Partitions(argpartition)
    ensures best == Top(HitsOf(rows, p), k)
  {
    CandidatesSuffice(rows, p, k);
    if p.candidateKeys == Some({}) {
      FollowingOrdered(rows, p.candidateKeys);
      assert Following(rows, p.candidateKeys, None) == [];
      return [];
    }
    best := ScanPages(rows, p, k, limit, argpartition, Following(rows, p.candidateKeys, None));
    var ordered := SortHits(best);
    best := ordered[..Min(k, |ordered|)];
  }

  /** The cursor points behind the first i rows of `all`. */
  ghost predicate CursorAt(all: seq<ScoredRow>, last: Option<string>, i: nat) {
    i <= |all| && (if i == 0 then last.None? else last == Some(all[i - 1].key))
  }

  /** One page query: the next rows behind the cursor, at most `limit` of them. */
  method NextPage(rows: seq<ScoredRow>, candidates: Option<set<string>>, last: Option<string>, limit: nat,
                  ghost all: seq<ScoredRow>, ghost i: nat)
    returns (page: seq<ScoredRow>)
    requires 0 < limit && KeyOrdered(rows) && all == Following(rows, candidates, None) && CursorAt(all, last, i)
    ensures |page| == Min(limit, |all| - i) && page == all[i..i + |page|]
  {
    PageFollows(rows, candidates, last, i);
    page := Page(rows, candidates, last, limit);
  }

  /** The page loop of `_search_vector_blocks`. */
  method ScanPages(
      rows: seq<ScoredRow>, p: CompiledFilter, k: nat, limit: nat, argpartition: Partition, ghost all: seq<ScoredRow>)
    returns (best: seq<Hit>)
    requires 0 < k && 0 < limit && KeyOrdered(rows) && Partitions(argpartition)
    requires all == Following(rows, p.candidateKeys, None) && KeyOrdered(all)
    ensures Represents(best, HitsOf(all, p), k)
  {
    best := [];
    var last: Option<string> := None;
    ghost var i := 0;
    while true
      invariant CursorAt(all, last, i)
      invariant Represents(best, HitsOf(all[..i], p), k)
      decreases |all| - i
    {
      var page := NextPage(rows, p.candidateKeys, last, limit, all, i);
      if page == [] {
        break;
      }
      PageHits(all, i, i + |page|, p);
      best := MergePage(best, HitsOf(page, p), k, argpartition, HitsOf(all[..i], p));
      last := Some(page[|page| - 1].key);
      i := i + |page|;
    }
    assert all[..i] == all;
  }

  lemma PageHits(all: seq<ScoredRow>, i: nat, next: nat, p: CompiledFilter)
    requires i <= next <= |all| && KeyOrdered(all)
    ensures HitsOf(all[..next], p) == HitsOf(all[..i], p) + HitsOf(all[i..next], p)
    ensures DistinctHits(HitsOf(all[..next], p))
  {
    assert all[..next] == all[..i] + all[i..next];
    HitsAppend(all[..i], all[i..next], p);
    HitsDistinct(all[..next], p);
  }

  /** Rows outside the candidate set have no hits to offer. */
  lemma CandidatesSuffice(rows: seq<ScoredRow>, p: CompiledFilter, k: nat)
    requires KeyOrdered(rows)
    ensures KeyOrdered(Following(rows, p.candidateKeys, None))
    ensures Top(HitsOf(Following(rows, p.candidateKeys, None), p), k) == Top(HitsOf(rows, p), k)
  {
    FollowingOrdered(rows, p.candidateKeys);
    HitsDistinct(rows, p);
    HitsDistinct(Following(rows, p.candidateKeys, None), p);
    HitsMembers(rows, p);
    HitsMembers(Following(rows, p.candidateKeys, None), p);
    TopOfSameHits(HitsOf(Following(rows, p.candidateKeys, None), p), HitsOf(rows, p), k);
  }

  /** The cursor leaves exactly the rows not yet seen. */
  lemma PageFollows(rows: seq<ScoredRow>, candidates: Option<set<string>>, last: Option<string>, i: nat)
    requires KeyOrdered(rows)
    requires CursorAt(Following(rows, candidates, None), last, i)
    ensures Following(rows, candidates, last) == Following(rows, candidates, None)[i..]
  {
    if i > 0 {
      FollowingOrdered(rows, candidates);
      FollowingSkips(rows, candidates, last.value);
      FollowingKey(Following(rows, candidates, None), i);
    }
  }

  // ----- All at once, over a snapshot -----

  /** Row i of the snapshot with its stored metadata and its score. */
  function SnapshotRows(s: Snapshot, storedMetadata: seq<Metadata>, storedUris: seq<Option<string>>, scores: seq<real>): seq<ScoredRow>
    requires s.WellFormed() && |s.keys| == |storedMetadata| == |storedUris| == |scores|
  {
    seq(|s.keys|, i requires 0 <= i < |s.keys| => ScoredRow(s.keys[i], s.Row(i, storedMetadata, storedUris), scores[i]))
  }

  function GatherHits(keys: seq<string>, scores: seq<real>, positions: seq<nat>): seq<Hit>
    requires |keys| == |scores| && forall i | 0 <= i < |positions| :: positions[i] < |keys|
  {
    seq(|positions|, j requires 0 <= j < |positions| => Hit(keys[positions[j]], scores[positions[j]]))
  }

  /** `search_vector` on a cached snapshot: filter, gather the scores, select. */
  method SearchSnapshot(
      s: Snapshot, names: set<string>, p: CompiledFilter, scores: seq<real>, k: nat, argpartition: Partition,
      ghost storedMetadata: seq<Metadata>, ghost storedUris: seq<Option<string>>)
    returns (r: Result<seq<Hit>, string>)
    requires 0 < k && Partitions(argpartition) && |scores| == |s.keys|
    requires s.Reflects(storedMetadata, storedUris) && CompiledFrom(names, p)
    ensures r.Ok? ==> r.value == Top(MatchingHits(s, Decided(p), scores, storedMetadata, storedUris), k)
    ensures s.Materialized() ==> r.Ok?
  {
    var filtered := FilterPositions(s, names, p, storedMetadata, storedUris);
    if filtered.Err? {
      return Err(filtered.error);
    }
    var positions := filtered.value;
    assert forall i | 0 <= i < |positions| :: positions[i] in positions;
    var hits := GatherHits(s.keys, scores, positions);
    GatherDistinct(s.keys, scores, positions);
    var selected := SelectHits(hits, k, argpartition);
    GatheredAreMatching(s, Decided(p), scores, positions, storedMetadata, storedUris, k);
    return Ok(selected);
  }

  method SelectHits(hits: seq<Hit>, k: nat, argpartition: Partition) returns (selected: seq<Hit>)
    requires 0 < k && Partitions(argpartition) && DistinctHits(hits)
    ensures selected == Top(hits, k)
  {
    selected := SelectTopPositions(hits, k, argpartition(hits, k));
  }

  /** The hits of the snapshot rows a predicate matches, in row order. */
  function MatchingHits(
    s: Snapshot, p: CompiledFilter, scores: seq<real>, storedMetadata: seq<Metadata>, storedUris: seq<Option<string>>): seq<Hit>
    requires s.WellFormed() && |s.keys| == |storedMetadata| == |storedUris| == |scores|
  {
    HitsOf(SnapshotRows(s, storedMetadata, storedUris, scores), p)
  }

  lemma GatherDistinct(keys: seq<string>, scores: seq<real>, positions: seq<nat>)
    requires |keys| == |scores| && Distinct(keys) && Ascending(positions)
    requires forall i | 0 <= i < |positions| :: positions[i] < |keys|
    ensures DistinctHits(GatherHits(keys, scores, positions))
  {
    var hits := GatherHits(keys, scores, positions);
    forall i, j | 0 <= i < j < |hits| ensures hits[i].key != hits[j].key {
      assert positions[i] < positions[j];
    }
  }

  lemma {:induction false} RowHitsDistinct(rows: seq<ScoredRow>, p: CompiledFilter)
    requires forall i, j :: 0 <= i < j < |rows| ==> rows[i].key != rows[j].key
    ensures DistinctHits(HitsOf(rows, p))
  {
    if rows != [] {
      var n := |rows| - 1;
      RowHitsDistinct(rows[..n], p);
      HitsMembers(rows[..n], p);
      var rest := HitsOf(rows[..n], p);
      forall i | 0 <= i < |rest| ensures rest[i].key != rows[n].key {
        assert rest[i] in rest;
      }
    }
  }

  lemma GatheredAreMatching(
      s: Snapshot, p: CompiledFilter, scores: seq<real>, positions: seq<nat>,
      storedMetadata: seq<Metadata>, storedUris: seq<Option<string>>, k: nat)
    requires s.Reflects(storedMetadata, storedUris) && |scores| == |s.keys| && Ascending(positions)
    requires forall i | 0 <= i < |positions| :: positions[i] < |s.keys|
    requires forall i: nat :: i in positions <==>
      i < |s.keys| && p.Matches(s.keys[i], s.Row(i, storedMetadata, storedUris))
    ensures Top(GatherHits(s.keys, scores, positions), k) == Top(MatchingHits(s, p, scores, storedMetadata, storedUris), k)
  {
    var rows := SnapshotRows(s, storedMetadata, storedUris, scores);
    var gathered, matching := GatherHits(s.keys, scores, positions), HitsOf(rows, p);
    HitsMembers(rows, p);
    RowHitsDistinct(rows, p);
    GatherDistinct(s.keys, scores, positions);
    forall h ensures h in gathered <==> h in matching {
      if h in gathered {
        var j :| 0 <= j < |gathered| && gathered[j] == h;
        assert positions[j] in positions;
        assert rows[positions[j]] in rows;
      }
      if h in matching {
        var row :| row in rows && p.Matches(row.key, row.attributes) && h == Hit(row.key, row.score);
        var i :| 0 <= i < |rows| && rows[i] == row;
        assert i in positions;
        var j :| 0 <= j < |positions| && positions[j] == i;
        assert gathered[j] == h;
      }
    }
    TopOfSameHits(gathered, matching, k);
  }

  /** Streaming by pages and searching the whole snapshot return the same list, unless excluded keys stand beside a
      metadata-only filter. */
  lemma BlocksAgreeWithSnapshot(
      s: Snapshot, p: CompiledFilter, scores: seq<real>, k: nat,
      storedMetadata: seq<Metadata>, storedUris: seq<Option<string>>)
    requires s.Reflects(storedMetadata, storedUris) && |scores| == |s.keys|
    requires p.excludedKeys.None? || !CanPrefilterMetadata(p)
    ensures Top(MatchingHits(s, Decided(p), scores, storedMetadata, storedUris), k)
         == Top(HitsOf(SnapshotRows(s, storedMetadata, storedUris, scores), p), k)
  {
    DecidedIsMatches(p);
    HitsAgree(SnapshotRows(s, storedMetadata, storedUris, scores), Decided(p), p);
  }

  lemma {:induction false} HitsAgree(rows: seq<ScoredRow>, p: CompiledFilter, q: CompiledFilter)
    requires forall key, a :: p.Matches(key, a) <==> q.Matches(key, a)
    ensures HitsOf(rows, p) == HitsOf(rows, q)
  {
    if rows != [] {
      HitsAgree(rows[..|rows| - 1], p, q);
    }
  }

  // ----- A bounded heap, over rows in rowid order -----

  /** One record of the keyword fallback scan: its hit, unless the filters or a zero score rule it out. */
  datatype ScannedRow = ScannedRow(rowid: nat, hit: Option<Hit>)

  function ScannedHits(rows: seq<ScannedRow>): seq<Hit> {
    if rows == [] then []
    else
      var n := |rows| - 1;
      ScannedHits(rows[..n]) + (if rows[n].hit.Some? then [rows[n].hit.value] else [])
  }

  function After(rows: seq<ScannedRow>, last: nat): seq<ScannedRow> {
    if rows == [] || rows[0].rowid > last then rows else After(rows[1..], last)
  }

  ghost predicate RowidOrdered(rows: seq<ScannedRow>) {
    (forall r <- rows :: 0 < r.rowid) && forall i, j :: 0 <= i < j < |rows| ==> rows[i].rowid < rows[j].rowid
  }

  lemma {:induction false} AfterRow(rows: seq<ScannedRow>, i: nat)
    requires RowidOrdered(rows) && i <= |rows|
    ensures After(rows, if i == 0 then 0 else rows[i - 1].rowid) == rows[i..]
  {
    if rows != [] {
      assert rows[0] in rows;
      if i > 0 {
        var rest := rows[1..];
        assert forall r <- rest :: r in rows;
        assert rest[i - 1..] == rows[i..];
        if i == 1 {
          AllAfter(rest, rows[0].rowid);
        } else {
          AfterRow(rest, i - 1);
        }
      }
    }
  }

  lemma AllAfter(rows: seq<ScannedRow>, last: nat)
    requires rows != [] ==> rows[0].rowid > last
    ensures After(rows, last) == rows
  {
  }

  /** One candidate meets the heap. `heap` lists its k best from best to worst, so its last element is the root of
      the min-heap. */
  method Offer(heap: seq<Hit>, candidate: Hit, k: nat, ghost seen: seq<Hit>) returns (r: seq<Hit>)
    requires 0 < k && DistinctHits(seen + [candidate]) && heap == Top(seen, k)
    ensures r == Top(seen + [candidate], k)
  {
    PartsDistinct(seen, [candidate]);
    SortMembers(seen);
    TopOfPruned(seen, [candidate], k);
    SortOfTop(seen, k);
    var n := |heap|;
    assert (heap + [candidate])[..n] == heap;
    assert SortHits(heap + [candidate]) == Insert(heap, candidate);
    InsertMembers(heap, candidate);
    if n < k {
      r := Insert(heap, candidate);
    } else if Better(candidate, heap[n - 1]) {
      r := Insert(heap[..n - 1], candidate);
      InsertBeforeLast(heap, candidate);
    } else {
      r := heap;
      TopIsTop(seen, k);
      InsertAtEnd(heap, candidate);
    }
  }

  lemma SortOfTop(hits: seq<Hit>, k: nat)
    requires DistinctHits(hits)
    ensures SortHits(Top(hits, k)) == Top(hits, k)
  {
    TopIsTop(hits, k);
    TopDistinct(hits, k);
    SortMembers(Top(hits, k));
    SortOrdered(Top(hits, k));
    OrderedUnique(SortHits(Top(hits, k)), Top(hits, k));
  }

  lemma {:induction false} InsertBeforeLast(sorted: seq<Hit>, h: Hit)
    requires sorted != [] && Better(h, sorted[|sorted| - 1])
    ensures |Insert(sorted, h)| == |sorted| + 1
    ensures Insert(sorted, h)[..|sorted|] == Insert(sorted[..|sorted| - 1], h)
  {
    var n := |sorted| - 1;
    InsertMembers(sorted, h);
    if !Better(h, sorted[0]) {
      InsertBeforeLast(sorted[1..], h);
      assert sorted[1..][..n - 1] == sorted[..n][1..];
      InsertMembers(sorted[1..], h);
    }
  }

  lemma {:induction false} InsertAtEnd(sorted: seq<Hit>, h: Hit)
    requires sorted != [] && Ordered(sorted) && !Better(h, sorted[|sorted| - 1])
    ensures |Insert(sorted, h)| == |sorted| + 1
    ensures Insert(sorted, h)[..|sorted|] == sorted
  {
    InsertMembers(sorted, h);
    if |sorted| > 1 {
      InsertAtEnd(sorted[1..], h);
      InsertMembers(sorted[1..], h);
      BetterIsStrictOrder(h, sorted[0], sorted[|sorted| - 1]);
    }
  }

  /** The scan loop of `_search_keyword_fallback`: pages by rowid, a heap of at most k hits. */
  method ScanWithHeap(rows: seq<ScannedRow>, k: nat, batch: nat) returns (hits: seq<Hit>)
    requires 0 < k && 0 < batch && RowidOrdered(rows) && DistinctHits(ScannedHits(rows))
    ensures hits == Top(ScannedHits(rows), k)
  {
    var heap: seq<Hit> := [];
    var last := 0;
    ghost var i := 0;
    while true
      invariant i <= |rows| && last == if i == 0 then 0 else rows[i - 1].rowid
      invariant heap == Top(ScannedHits(rows[..i]), k)
      decreases |rows| - i
    {
      AfterRow(rows, i);
      var following := After(rows, last);
      var page := following[..Min(batch, |following|)];
      if page == [] {
        break;
      }
      last := page[|page| - 1].rowid;
      heap := OfferPage(rows, i, page, heap, k);
      i := i + |page|;
      if |page| < batch {
        break;
      }
    }
    assert rows[..i] == rows;
    hits := SortHits(heap);
    SortOfTop(ScannedHits(rows), k);
  }

  method OfferPage(ghost rows: seq<ScannedRow>, ghost i: nat, page: seq<ScannedRow>, start: seq<Hit>, k: nat)
    returns (heap: seq<Hit>)
    requires 0 < k && i + |page| <= |rows| && page == rows[i..i + |page|]
    requires DistinctHits(ScannedHits(rows)) && start == Top(ScannedHits(rows[..i]), k)
    ensures heap == Top(ScannedHits(rows[..i + |page|]), k)
  {
    heap := start;
    for j := 0 to |page|
      invariant heap == Top(ScannedHits(rows[..i + j]), k)
    {
      assert rows[..i + j + 1][..i + j] == rows[..i + j];
      if page[j].hit.Some? {
        ScannedPrefixDistinct(rows, i + j + 1);
        heap := Offer(heap, page[j].hit.value, k, ScannedHits(rows[..i + j]));
      } else {
        assert ScannedHits(rows[..i + j]) + [] == ScannedHits(rows[..i + j]);
      }
    }
  }

  lemma ScannedPrefixDistinct(rows: seq<ScannedRow>, n: nat)
    requires n <= |rows| && DistinctHits(ScannedHits(rows))
    ensures DistinctHits(ScannedHits(rows[..n]))
    decreases |rows|
  {
    if n < |rows| {
      var init := rows[..|rows| - 1];
      var rest := if rows[|rows| - 1].hit.Some? then [rows[|rows| - 1].hit.value] else [];
      PartsDistinct(ScannedHits(init), rest);
      ScannedPrefixDistinct(init, n);
      assert init[..n] == rows[..n];
    } else {
      assert rows[..n] == rows;
    }
  }
}
