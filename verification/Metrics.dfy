/** Ranking metrics (searchkernel/eval/metrics.py) over real numbers, and the bounds their documentation promises. */
module Metrics {
  import opened Base

  datatype MetricError = NegativeCutoff

  /** What one result at a rank is worth: `gain / log2(rank + 1)`. */
  function Scaled(gain: real, factor: real): real { gain * factor }

  /** The discount factor of each rank, counted from one: positive and never increasing. */
  ghost predicate IsDiscount(factor: nat -> real) {
    forall n: nat :: factor(n) > 0.0 && factor(n + 1) <= factor(n)
  }

  /** `gains.get(id, 1.0) if gains else 1.0`. */
  function GainOf(gains: Option<map<string, real>>, id: string): real {
    if gains.Some? && id in gains.value then gains.value[id] else 1.0
  }

  ghost predicate NonNegative(gains: Option<map<string, real>>) {
    forall id :: GainOf(gains, id) >= 0.0
  }

  function Smaller(a: nat, b: nat): nat { if a < b then a else b }

  // ----- Discounted gain -----

  /** The gain found at each rank: that of the result if it is relevant, nothing otherwise. */
  function Found(ranked: seq<string>, relevant: set<string>, gains: Option<map<string, real>>): (r: seq<real>)
    ensures |r| == |ranked|
  {
    seq(|ranked|, i requires 0 <= i < |ranked| => if ranked[i] in relevant then GainOf(gains, ranked[i]) else 0.0)
  }

  function At(values: seq<real>, i: nat): real {
    if i < |values| then values[i] else 0.0
  }

  /** Discounted gain of the first n ranks. */
  function Discounted(values: seq<real>, n: nat, factor: nat -> real): real {
    if n == 0 then 0.0 else Discounted(values, n - 1, factor) + Scaled(At(values, n - 1), factor(n))
  }

  /** Plain gain of the first n ranks. */
  function Total(values: seq<real>, n: nat): real {
    if n == 0 then 0.0 else Total(values, n - 1) + At(values, n - 1)
  }

  function GainsOf(ids: seq<string>, gains: Option<map<string, real>>): (r: seq<real>)
    ensures |r| == |ids| && forall i :: 0 <= i < |r| ==> r[i] == GainOf(gains, ids[i])
  {
    seq(|ids|, i requires 0 <= i < |ids| => GainOf(gains, ids[i]))
  }

  /** Ids in descending order of gain; only the gains matter to `sorted(ideal_gains, reverse=True)`. */
  function Place(sorted: seq<string>, id: string, gains: Option<map<string, real>>): seq<string> {
    if sorted == [] || GainOf(gains, id) > GainOf(gains, sorted[0]) then [id] + sorted
    else [sorted[0]] + Place(sorted[1..], id, gains)
  }

  function ByGain(ids: seq<string>, gains: Option<map<string, real>>): seq<string> {
    if ids == [] then [] else Place(ByGain(ids[..|ids| - 1], gains), ids[|ids| - 1], gains)
  }

  ghost predicate Descending(ids: seq<string>, gains: Option<map<string, real>>) {
    forall i, j :: 0 <= i < j < |ids| ==> GainOf(gains, ids[i]) >= GainOf(gains, ids[j])
  }

  function IdealGain(universe: seq<string>, k: nat, gains: Option<map<string, real>>, factor: nat -> real): real {
    var sorted := GainsOf(ByGain(universe, gains), gains);
    Discounted(sorted, Smaller(k, |sorted|), factor)
  }

  function ActualGain(
      ranked: seq<string>, universe: seq<string>, k: nat, gains: Option<map<string, real>>, factor: nat -> real): real
  {
    var n := Smaller(k, |ranked|);
    Discounted(Found(ranked, Elements(universe), gains), n, factor)
  }

  /** Normalised discounted gain at k; `universe` lists the relevant ids as the frozen set is iterated. */
  function Normalized(
      ranked: seq<string>, universe: seq<string>, k: nat, gains: Option<map<string, real>>, factor: nat -> real): real
  {
    var ideal := IdealGain(universe, k, gains, factor);
    if universe == [] || ideal == 0.0 then 0.0 else ActualGain(ranked, universe, k, gains, factor) / ideal
  }

  method NdcgAtK(
      ranked: seq<string>, universe: seq<string>, k: int, gains: Option<map<string, real>>, factor: nat -> real)
      returns (r: Result<real, MetricError>)
    ensures k < 0 <==> r == Err(NegativeCutoff)
    ensures k >= 0 ==> r == Ok(Normalized(ranked, universe, k, gains, factor))
  {
    if k < 0 {
      return Err(NegativeCutoff);
    }
    if universe == [] {
      return Ok(0.0);
    }
    var relevant := Elements(universe);
    ghost var found := Found(ranked, relevant, gains);
    var dcg := 0.0;
    var i := 0;
    while i < |ranked| && i < k
      invariant 0 <= i <= Smaller(k, |ranked|)
      invariant dcg == Discounted(found, i, factor)
    {
      if ranked[i] in relevant {
        dcg := dcg + Scaled(GainOf(gains, ranked[i]), factor(i + 1));
      }
      i := i + 1;
    }
    var sorted := GainsOf(ByGain(universe, gains), gains);
    var idcg := 0.0;
    i := 0;
    while i < |sorted| && i < k
      invariant 0 <= i <= Smaller(k, |sorted|)
      invariant idcg == Discounted(sorted, i, factor)
    {
      idcg := idcg + Scaled(sorted[i], factor(i + 1));
      i := i + 1;
    }
    r := Ok(if idcg == 0.0 then 0.0 else dcg / idcg);
  }

  // ----- No distinct ids gain more than as many of the best -----

  lemma {:induction false} PlaceKeeps(sorted: seq<string>, id: string, gains: Option<map<string, real>>)
    requires Descending(sorted, gains)
    ensures Descending(Place(sorted, id, gains), gains)
    ensures |Place(sorted, id, gains)| == |sorted| + 1
    ensures forall x :: x in Place(sorted, id, gains) <==> x in sorted || x == id
  {
    if sorted != [] && GainOf(gains, id) <= GainOf(gains, sorted[0]) {
      PlaceKeeps(sorted[1..], id, gains);
      var rest := Place(sorted[1..], id, gains);
      assert sorted == [sorted[0]] + sorted[1..];
      forall j | 0 <= j < |rest| ensures GainOf(gains, sorted[0]) >= GainOf(gains, rest[j]) {
        assert rest[j] in rest;
      }
    }
  }

  lemma {:induction false} ByGainKeeps(ids: seq<string>, gains: Option<map<string, real>>)
    ensures Descending(ByGain(ids, gains), gains) && |ByGain(ids, gains)| == |ids|
    ensures forall x :: x in ByGain(ids, gains) <==> x in ids
  {
    if ids != [] {
      var n := |ids| - 1;
      ByGainKeeps(ids[..n], gains);
      PlaceKeeps(ByGain(ids[..n], gains), ids[n], gains);
      assert ids == ids[..n] + [ids[n]];
    }
  }

  lemma ByGainDistinct(ids: seq<string>, gains: Option<map<string, real>>)
    requires Distinct(ids)
    ensures Distinct(ByGain(ids, gains)) && Elements(ByGain(ids, gains)) == Elements(ids)
  {
    ByGainKeeps(ids, gains);
    DistinctCardinality(ids);
    assert Elements(ByGain(ids, gains)) == Elements(ids);
    UniqueIsDistinct(ByGain(ids, gains));
  }

  function SumOf(ids: seq<string>, gains: Option<map<string, real>>): real {
    if ids == [] then 0.0 else SumOf(ids[..|ids| - 1], gains) + GainOf(gains, ids[|ids| - 1])
  }

  function Remove<T>(s: seq<T>, p: nat): seq<T>
    requires p < |s|
  {
    s[..p] + s[p + 1..]
  }

  lemma {:induction false} SumRemove(ids: seq<string>, p: nat, gains: Option<map<string, real>>)
    requires p < |ids|
    ensures SumOf(ids, gains) == SumOf(Remove(ids, p), gains) + GainOf(gains, ids[p])
  {
    var n := |ids| - 1;
    if p == n {
      assert Remove(ids, p) == ids[..n];
    } else {
      SumRemove(ids[..n], p, gains);
      assert Remove(ids, p)[..n - 1] == Remove(ids[..n], p);
    }
  }

  lemma RemoveKeeps(hits: seq<string>, p: nat, best: seq<string>)
    requires p < |hits| && best != [] && Distinct(hits) && hits[p] == best[|best| - 1]
    requires forall i :: 0 <= i < |hits| ==> hits[i] in best
    ensures Distinct(Remove(hits, p))
    ensures forall i :: 0 <= i < |Remove(hits, p)| ==> Remove(hits, p)[i] in best[..|best| - 1]
  {
    var n, rest := |best| - 1, Remove(hits, p);
    assert best == best[..n] + [best[n]];
    forall i | 0 <= i < |rest| ensures rest[i] == hits[if i < p then i else i + 1] && rest[i] in best[..n] {
      assert rest[i] in best;
    }
  }

  lemma SumPrefix(ids: seq<string>, m: nat, gains: Option<map<string, real>>)
    requires m < |ids|
    ensures SumOf(ids[..m + 1], gains) == SumOf(ids[..m], gains) + GainOf(gains, ids[m])
  {
    assert ids[..m + 1][..m] == ids[..m];
  }

  /** Where an id first stands in a list, or the length of the list. */
  function Position(ids: seq<string>, id: string): (p: nat)
    ensures p <= |ids| && (p < |ids| ==> ids[p] == id) && (p == |ids| ==> id !in ids)
  {
    if ids == [] || ids[0] == id then 0
    else
      assert ids == [ids[0]] + ids[1..];
      Position(ids[1..], id) + 1
  }

  lemma StillIn(hits: seq<string>, best: seq<string>)
    requires best != [] && best[|best| - 1] !in hits
    requires forall i :: 0 <= i < |hits| ==> hits[i] in best
    ensures forall i :: 0 <= i < |hits| ==> hits[i] in best[..|best| - 1]
  {
    assert best == best[..|best| - 1] + [best[|best| - 1]];
  }

  lemma PutBack(hits: seq<string>, p: nat, best: seq<string>, gains: Option<map<string, real>>)
    requires p < |hits| <= |best| && hits[p] == best[|best| - 1] && Descending(best, gains)
    requires SumOf(Remove(hits, p), gains) <= SumOf(best[..|best| - 1][..|hits| - 1], gains)
    ensures SumOf(hits, gains) <= SumOf(best[..|hits|], gains)
  {
    assert best[..|best| - 1][..|hits| - 1] == best[..|hits| - 1];
    SumRemove(hits, p, gains);
    SumPrefix(best, |hits| - 1, gains);
  }

  lemma FrontOfFront<T>(s: seq<T>, n: nat, m: nat)
    requires m <= n <= |s|
    ensures s[..n][..m] == s[..m]
  {
  }

  /** Distinct ids from a list in descending order of gain gain no more than as many from its front. */
  lemma {:induction false} BestIdsGainMost(hits: seq<string>, best: seq<string>, gains: Option<map<string, real>>)
    requires Distinct(hits) && Descending(best, gains)
    requires forall i :: 0 <= i < |hits| ==> hits[i] in best
    ensures |hits| <= |best| && SumOf(hits, gains) <= SumOf(best[..|hits|], gains)
    decreases |best|
  {
    if hits != [] {
      assert hits[0] in best;
      var n := |best| - 1;
      var front := best[..n];
      assert Descending(front, gains) by {
        assert forall i | 0 <= i < n :: front[i] == best[i];
      }
      var p := Position(hits, best[n]);
      if p < |hits| {
        var rest := Remove(hits, p);
        RemoveKeeps(hits, p, best);
        BestIdsGainMost(rest, front, gains);
        PutBack(hits, p, best, gains);
      } else {
        StillIn(hits, best);
        BestIdsGainMost(hits, front, gains);
        FrontOfFront(best, n, |hits|);
      }
    }
  }

  /** The relevant results among the first j. */
  function Hits(ranked: seq<string>, relevant: set<string>, j: nat): (r: seq<string>)
    requires j <= |ranked|
    ensures |r| <= j && forall i :: 0 <= i < |r| ==> r[i] in relevant && r[i] in ranked[..j]
  {
    if j == 0 then []
    else
      var before := Hits(ranked, relevant, j - 1);
      assert ranked[..j] == ranked[..j - 1] + [ranked[j - 1]];
      if ranked[j - 1] in relevant then before + [ranked[j - 1]] else before
  }

  lemma {:induction false} HitsDistinct(ranked: seq<string>, relevant: set<string>, j: nat)
    requires j <= |ranked| && Distinct(ranked[..j])
    ensures Distinct(Hits(ranked, relevant, j))
  {
    if j > 0 {
      assert ranked[..j][..j - 1] == ranked[..j - 1];
      assert Distinct(ranked[..j - 1]) by {
        assert forall a | 0 <= a < j - 1 :: ranked[..j - 1][a] == ranked[..j][a];
      }
      HitsDistinct(ranked, relevant, j - 1);
      assert ranked[..j][j - 1] == ranked[j - 1];
      assert ranked[j - 1] !in ranked[..j - 1] by {
        assert forall a | 0 <= a < j - 1 :: ranked[..j][a] == ranked[..j - 1][a];
      }
    }
  }

  lemma {:induction false} FoundIsHits(
      ranked: seq<string>, relevant: set<string>, j: nat, gains: Option<map<string, real>>)
    requires j <= |ranked|
    ensures Total(Found(ranked, relevant, gains), j) == SumOf(Hits(ranked, relevant, j), gains)
  {
    if j > 0 {
      FoundIsHits(ranked, relevant, j - 1, gains);
      var before := Hits(ranked, relevant, j - 1);
      assert (before + [ranked[j - 1]])[..|before|] == before;
    }
  }

  lemma {:induction false} SumIsTotal(ids: seq<string>, m: nat, gains: Option<map<string, real>>)
    requires m <= |ids|
    ensures SumOf(ids[..m], gains) == Total(GainsOf(ids, gains), m)
  {
    if m > 0 {
      SumIsTotal(ids, m - 1, gains);
      assert ids[..m][..m - 1] == ids[..m - 1];
    }
  }

  lemma {:induction false} TotalGrows(values: seq<real>, m: nat, n: nat)
    requires m <= n && forall i :: 0 <= i < |values| ==> values[i] >= 0.0
    ensures 0.0 <= Total(values, m) <= Total(values, n)
    decreases m + n
  {
    if m < n {
      TotalGrows(values, m, n - 1);
    } else if m > 0 {
      TotalGrows(values, m - 1, n - 1);
    }
  }

  /** The first j results of a duplicate-free ranking gain no more than the j best relevant ids. */
  lemma PrefixBound(ranked: seq<string>, universe: seq<string>, j: nat, gains: Option<map<string, real>>)
    requires Distinct(universe) && NonNegative(gains)
    requires j <= |ranked| && Distinct(ranked[..j])
    ensures Total(Found(ranked, Elements(universe), gains), j)
      <= Total(GainsOf(ByGain(universe, gains), gains), Smaller(j, |universe|))
  {
    var best := ByGain(universe, gains);
    var hits := Hits(ranked, Elements(universe), j);
    ByGainKeeps(universe, gains);
    ByGainDistinct(universe, gains);
    HitsDistinct(ranked, Elements(universe), j);
    assert forall i | 0 <= i < |hits| :: hits[i] in Elements(best);
    BestIdsGainMost(hits, best, gains);
    FoundIsHits(ranked, Elements(universe), j, gains);
    SumIsTotal(best, |hits|, gains);
    TotalGrows(GainsOf(best, gains), |hits|, Smaller(j, |universe|));
  }

  // ----- Rearrangement -----

  lemma ScaledIsLinear(a: real, b: real, f: real)
    ensures Scaled(a + b, f) == Scaled(a, f) + Scaled(b, f) && Scaled(a - b, f) == Scaled(a, f) - Scaled(b, f)
  {
  }

  lemma ScaledIsMonotone(a: real, b: real, f: real, g: real)
    requires 0.0 <= a <= b && 0.0 <= f <= g
    ensures 0.0 <= Scaled(a, f) <= Scaled(b, f) <= Scaled(b, g)
  {
  }

  /** If no prefix of `a` totals more than that of `b`, the difference of their discounted gains is at least the
      difference of their totals, discounted by the last factor. */
  lemma {:induction false} Rearrangement(a: seq<real>, b: seq<real>, n: nat, factor: nat -> real)
    requires IsDiscount(factor) && forall j: nat :: j <= n ==> Total(a, j) <= Total(b, j)
    ensures Discounted(b, n, factor) - Discounted(a, n, factor) >= Scaled(Total(b, n) - Total(a, n), factor(n)) >= 0.0
  {
    if n == 0 {
      assert Scaled(0.0, factor(0)) == 0.0;
    } else {
      Rearrangement(a, b, n - 1, factor);
      var before, step := Total(b, n - 1) - Total(a, n - 1), At(b, n - 1) - At(a, n - 1);
      assert factor(n - 1 + 1) <= factor(n - 1) && factor(n) > 0.0;
      ScaledIsMonotone(before, before, factor(n), factor(n - 1));
      ScaledIsLinear(before, step, factor(n));
      ScaledIsLinear(At(b, n - 1), At(a, n - 1), factor(n));
      ScaledIsMonotone(Total(b, n) - Total(a, n), Total(b, n) - Total(a, n), factor(n), factor(n));
    }
  }

  lemma {:induction false} PaddingAddsNothing(values: seq<real>, m: nat, n: nat, factor: nat -> real)
    requires |values| <= m <= n
    ensures Total(values, n) == Total(values, m) && Discounted(values, n, factor) == Discounted(values, m, factor)
    decreases n
  {
    if m < n {
      PaddingAddsNothing(values, m, n - 1, factor);
      assert Scaled(0.0, factor(n)) == 0.0;
    }
  }

  /** Cutting a list off does not change what lies before the cut. */
  lemma {:induction false} PrefixSame(values: seq<real>, m: nat, n: nat, factor: nat -> real)
    requires n <= m <= |values|
    ensures Total(values[..m], n) == Total(values, n)
    ensures Discounted(values[..m], n, factor) == Discounted(values, n, factor)
    decreases n
  {
    if n > 0 {
      PrefixSame(values, m, n - 1, factor);
    }
  }

  /** What the first k results gain, rank by rank. */
  function Gained(ranked: seq<string>, universe: seq<string>, k: nat, gains: Option<map<string, real>>): seq<real> {
    Found(ranked, Elements(universe), gains)[..Smaller(k, |ranked|)]
  }

  /** The best the first k ranks could gain. */
  function Best(universe: seq<string>, k: nat, gains: Option<map<string, real>>): seq<real> {
    var sorted := GainsOf(ByGain(universe, gains), gains);
    sorted[..Smaller(k, |sorted|)]
  }

  /** No first few ranks total more. */
  ghost predicate Dominated(a: seq<real>, b: seq<real>) {
    forall j: nat :: Total(a, j) <= Total(b, j)
  }

  lemma GainsOfPrefixes(
      ranked: seq<string>, universe: seq<string>, k: nat, gains: Option<map<string, real>>, factor: nat -> real,
      n: nat)
    requires |Gained(ranked, universe, k, gains)| <= n && |Best(universe, k, gains)| <= n
    ensures ActualGain(ranked, universe, k, gains, factor) == Discounted(Gained(ranked, universe, k, gains), n, factor)
    ensures IdealGain(universe, k, gains, factor) == Discounted(Best(universe, k, gains), n, factor)
  {
    var found, sorted := Found(ranked, Elements(universe), gains), GainsOf(ByGain(universe, gains), gains);
    var reach, kept := Smaller(k, |ranked|), Smaller(k, |sorted|);
    PaddingAddsNothing(found[..reach], reach, n, factor);
    PaddingAddsNothing(sorted[..kept], kept, n, factor);
    PrefixSame(found, reach, reach, factor);
    PrefixSame(sorted, kept, kept, factor);
  }

  /** A duplicate-free ranking is dominated by the ideal one. */
  lemma DistinctIsDominated(ranked: seq<string>, universe: seq<string>, k: nat, gains: Option<map<string, real>>)
    requires Distinct(universe) && Distinct(ranked) && NonNegative(gains)
    ensures Dominated(Gained(ranked, universe, k, gains), Best(universe, k, gains))
  {
    forall j: nat ensures Total(Gained(ranked, universe, k, gains), j) <= Total(Best(universe, k, gains), j) {
      PrefixTotals(ranked, universe, k, j, gains, _ => 1.0);
    }
  }

  /** Discounted gain of a dominated ranking never exceeds the ideal. */
  lemma ActualIsAtMostIdeal(
      ranked: seq<string>, universe: seq<string>, k: nat, gains: Option<map<string, real>>, factor: nat -> real)
    requires Dominated(Gained(ranked, universe, k, gains), Best(universe, k, gains)) && IsDiscount(factor)
    ensures ActualGain(ranked, universe, k, gains, factor) <= IdealGain(universe, k, gains, factor)
  {
    var a, b := Gained(ranked, universe, k, gains), Best(universe, k, gains);
    GainsOfPrefixes(ranked, universe, k, gains, factor, |a| + |b|);
    Rearrangement(a, b, |a| + |b|, factor);
  }

  lemma PrefixTotals(
      ranked: seq<string>, universe: seq<string>, k: nat, j: nat, gains: Option<map<string, real>>,
      factor: nat -> real)
    requires Distinct(universe) && Distinct(ranked) && NonNegative(gains)
    ensures Total(Gained(ranked, universe, k, gains), j) <= Total(Best(universe, k, gains), j)
  {
    ByGainKeeps(universe, gains);
    var sorted := GainsOf(ByGain(universe, gains), gains);
    var found := Found(ranked, Elements(universe), gains);
    var reach, kept := Smaller(k, |ranked|), Smaller(k, |sorted|);
    var near := Smaller(j, reach);
    var top := Smaller(near, |universe|);
    PrefixBound(ranked, universe, near, gains);
    PrefixSame(found, reach, near, factor);
    if reach < j {
      PaddingAddsNothing(found[..reach], reach, j, factor);
    }
    PrefixSame(sorted, kept, top, factor);
    TotalGrows(sorted[..kept], top, j);
  }

  lemma {:induction false} DiscountedNonNegative(values: seq<real>, n: nat, factor: nat -> real)
    requires IsDiscount(factor) && forall i :: 0 <= i < |values| ==> values[i] >= 0.0
    ensures Discounted(values, n, factor) >= 0.0
  {
    if n > 0 {
      DiscountedNonNegative(values, n - 1, factor);
      assert factor(n) > 0.0;
      ScaledIsMonotone(At(values, n - 1), At(values, n - 1), factor(n), factor(n));
    }
  }

  lemma QuotientInUnit(a: real, b: real)
    requires 0.0 <= a <= b && 0.0 < b
    ensures 0.0 <= a / b <= 1.0
  {
  }

  lemma DominatedInUnit(
      ranked: seq<string>, universe: seq<string>, k: nat, gains: Option<map<string, real>>, factor: nat -> real)
    requires Dominated(Gained(ranked, universe, k, gains), Best(universe, k, gains))
    requires NonNegative(gains) && IsDiscount(factor)
    ensures 0.0 <= Normalized(ranked, universe, k, gains, factor) <= 1.0
  {
    var ideal := IdealGain(universe, k, gains, factor);
    var actual := ActualGain(ranked, universe, k, gains, factor);
    ActualIsAtMostIdeal(ranked, universe, k, gains, factor);
    DiscountedNonNegative(Found(ranked, Elements(universe), gains), Smaller(k, |ranked|), factor);
    if ideal != 0.0 {
      QuotientInUnit(actual, ideal);
    }
  }

  /** nDCG of a duplicate-free ranking with non-negative gains lies between zero and one. */
  lemma NormalizedInUnit(
      ranked: seq<string>, universe: seq<string>, k: nat, gains: Option<map<string, real>>, factor: nat -> real)
    requires Distinct(universe) && Distinct(ranked) && NonNegative(gains) && IsDiscount(factor)
    ensures 0.0 <= Normalized(ranked, universe, k, gains, factor) <= 1.0
  {
    DistinctIsDominated(ranked, universe, k, gains);
    DominatedInUnit(ranked, universe, k, gains, factor);
  }

  // ----- When nDCG is bounded -----

  /** One down to rank j, and a small constant below it. */
  function Step(j: nat, low: real): nat -> real {
    n => if n <= j then 1.0 else low
  }

  lemma {:induction false} StepDiscounted(values: seq<real>, n: nat, j: nat, low: real)
    requires j <= n
    ensures Discounted(values, n, Step(j, low)) == Total(values, j) + Scaled(Total(values, n) - Total(values, j), low)
    decreases n
  {
    if n == 0 {
      assert Scaled(0.0, low) == 0.0;
    } else if j == n {
      StepAbove(values, n, j, low);
      assert Scaled(0.0, low) == 0.0;
    } else {
      StepDiscounted(values, n - 1, j, low);
      ScaledIsLinear(Total(values, n - 1) - Total(values, j), At(values, n - 1), low);
    }
  }

  lemma {:induction false} StepAbove(values: seq<real>, n: nat, j: nat, low: real)
    requires n <= j
    ensures Discounted(values, n, Step(j, low)) == Total(values, n)
  {
    if n > 0 {
      StepAbove(values, n - 1, j, low);
      assert Scaled(At(values, n - 1), 1.0) == At(values, n - 1);
    }
  }

  /** A positive constant so small that what lies below it does not make up for a gap above. */
  function LowEnough(gap: real, below: real): real
    requires gap > 0.0
  {
    if below >= 0.0 then 1.0 else gap / (gap - below)
  }

  lemma LowEnoughKeepsGap(gap: real, below: real)
    requires gap > 0.0
    ensures 0.0 < LowEnough(gap, below) <= 1.0 && gap + Scaled(below, LowEnough(gap, below)) > 0.0
  {
    if below < 0.0 {
      var low := LowEnough(gap, below);
      PartOf(gap, gap - below);
      assert Scaled(gap - below, low) == gap;
      ScaledIsLinear(gap, below, low);
      assert Scaled(gap, low) > 0.0;
    }
  }

  lemma PartOf(a: real, b: real)
    requires 0.0 < a < b
    ensures 0.0 < a / b <= 1.0 && Scaled(b, a / b) == a
  {
  }

  /** A first few ranks that total more outweigh the rest under some discount. */
  lemma ExcessShows(a: seq<real>, b: seq<real>, n: nat, j: nat) returns (factor: nat -> real)
    requires j <= n && Total(a, j) > Total(b, j)
    ensures IsDiscount(factor) && Discounted(a, n, factor) > Discounted(b, n, factor)
  {
    var gap := Total(a, j) - Total(b, j);
    var below := (Total(a, n) - Total(a, j)) - (Total(b, n) - Total(b, j));
    var low := LowEnough(gap, below);
    factor := Step(j, low);
    LowEnoughKeepsGap(gap, below);
    StepDiscounted(a, n, j, low);
    StepDiscounted(b, n, j, low);
    ScaledIsLinear(Total(a, n) - Total(a, j), Total(b, n) - Total(b, j), low);
  }

  /** If anything is gained, so is something by the ideal ranking. */
  lemma IdealIsPositive(
      ranked: seq<string>, universe: seq<string>, k: nat, gains: Option<map<string, real>>, factor: nat -> real, j: nat)
    requires NonNegative(gains) && IsDiscount(factor) && Total(Gained(ranked, universe, k, gains), j) > 0.0
    ensures universe != [] && IdealGain(universe, k, gains, factor) > 0.0
  {
    var a := Gained(ranked, universe, k, gains);
    var i := PositiveTerm(a, j);
    var best, id := ByGain(universe, gains), ranked[i];
    ByGainKeeps(universe, gains);
    assert a[i] == GainOf(gains, id) && id in universe;
    var p :| 0 <= p < |best| && best[p] == id;
    assert GainOf(gains, best[0]) >= GainOf(gains, id);
    assert factor(1) > 0.0;
    FirstCounts(GainsOf(best, gains), Smaller(k, |best|), factor);
  }

  lemma {:induction false} PositiveTerm(values: seq<real>, j: nat) returns (i: nat)
    requires Total(values, j) > 0.0
    ensures i < |values| && values[i] > 0.0
  {
    if At(values, j - 1) > 0.0 {
      i := j - 1;
    } else {
      i := PositiveTerm(values, j - 1);
    }
  }

  lemma {:induction false} FirstCounts(values: seq<real>, n: nat, factor: nat -> real)
    requires 0 < n <= |values| && values[0] > 0.0 && IsDiscount(factor)
    requires forall i :: 0 <= i < |values| ==> values[i] >= 0.0
    ensures Discounted(values, n, factor) > 0.0
  {
    assert factor(n) > 0.0;
    if n == 1 {
      assert Scaled(values[0], factor(1)) > 0.0;
    } else {
      FirstCounts(values, n - 1, factor);
      ScaledIsMonotone(values[n - 1], values[n - 1], factor(n), factor(n));
    }
  }

  /** For non-negative gains, nDCG stays in [0,1] under every discount exactly when no first few results among the first
      k gain more than as many of the best ids. */
  lemma DominanceBoundsExactly(ranked: seq<string>, universe: seq<string>, k: nat, gains: Option<map<string, real>>)
    requires NonNegative(gains)
    ensures (forall factor: nat -> real :: IsDiscount(factor) ==>
               0.0 <= Normalized(ranked, universe, k, gains, factor) <= 1.0)
      <==> Dominated(Gained(ranked, universe, k, gains), Best(universe, k, gains))
  {
    var a, b := Gained(ranked, universe, k, gains), Best(universe, k, gains);
    if Dominated(a, b) {
      forall factor: nat -> real | IsDiscount(factor)
        ensures 0.0 <= Normalized(ranked, universe, k, gains, factor) <= 1.0
      {
        DominatedInUnit(ranked, universe, k, gains, factor);
      }
    } else {
      var j: nat :| Total(a, j) > Total(b, j);
      var factor := ExcessBreaksBound(ranked, universe, k, gains, j);
      assert Normalized(ranked, universe, k, gains, factor) > 1.0;
    }
  }

  lemma ExcessBreaksBound(
      ranked: seq<string>, universe: seq<string>, k: nat, gains: Option<map<string, real>>, j: nat)
      returns (factor: nat -> real)
    requires NonNegative(gains)
    requires Total(Gained(ranked, universe, k, gains), j) > Total(Best(universe, k, gains), j)
    ensures IsDiscount(factor) && Normalized(ranked, universe, k, gains, factor) > 1.0
  {
    var a, b := Gained(ranked, universe, k, gains), Best(universe, k, gains);
    var n := |a| + |b| + j;
    factor := ExcessShows(a, b, n, j);
    GainsOfPrefixes(ranked, universe, k, gains, factor, n);
    TotalGrows(b, 0, j);
    IdealIsPositive(ranked, universe, k, gains, factor, j);
    ExceedsOne(ActualGain(ranked, universe, k, gains, factor), IdealGain(universe, k, gains, factor));
  }

  /** Without graded gains that is so exactly when the first k results hold no more relevant occurrences than there are
      relevant ids. */
  lemma BinaryBoundExactlyWhen(ranked: seq<string>, universe: seq<string>, k: nat)
    ensures (forall factor: nat -> real :: IsDiscount(factor) ==>
               0.0 <= Normalized(ranked, universe, k, None, factor) <= 1.0)
      <==> CountHits(ranked, Elements(universe), Smaller(k, |ranked|)) <= |universe|
  {
    var reach := Smaller(k, |ranked|);
    DominanceBoundsExactly(ranked, universe, k, None);
    forall j: nat
      ensures Total(Gained(ranked, universe, k, None), j)
        == CountHits(ranked, Elements(universe), Smaller(j, reach)) as real
      ensures Total(Best(universe, k, None), j) == Smaller(j, Smaller(k, |universe|)) as real
    {
      BinaryTotals(ranked, universe, k, j);
    }
    if CountHits(ranked, Elements(universe), reach) <= |universe| {
      forall j: nat ensures Total(Gained(ranked, universe, k, None), j) <= Total(Best(universe, k, None), j) {
        CountGrows(ranked, Elements(universe), Smaller(j, reach), reach);
        CountBound(ranked, Elements(universe), Smaller(j, reach));
      }
    } else {
      CountBound(ranked, Elements(universe), reach);
      assert Total(Gained(ranked, universe, k, None), reach) > Total(Best(universe, k, None), reach);
    }
  }

  lemma {:induction false} BinaryTotals(ranked: seq<string>, universe: seq<string>, k: nat, j: nat)
    ensures Total(Gained(ranked, universe, k, None), j)
      == CountHits(ranked, Elements(universe), Smaller(j, Smaller(k, |ranked|))) as real
    ensures Total(Best(universe, k, None), j) == Smaller(j, Smaller(k, |universe|)) as real
    decreases j
  {
    ByGainKeeps(universe, None);
    if j > 0 {
      BinaryTotals(ranked, universe, k, j - 1);
    }
  }

  // ----- When nDCG is bounded, whatever the signs of the gains -----

  /** The quotient of the two is not in [0,1]. */
  predicate OutOfUnit(a: real, b: real) {
    if b > 0.0 then a < 0.0 || a > b else b < 0.0 && (a > 0.0 || a < b)
  }

  lemma OutOfUnitExactlyWhen(a: real, b: real)
    requires b != 0.0
    ensures OutOfUnit(a, b) <==> !(0.0 <= a / b <= 1.0)
  {
    QuotientSign(a, b);
    QuotientSign(a - b, b);
    QuotientLess(a, b);
  }

  lemma QuotientLess(a: real, b: real)
    requires b != 0.0
    ensures (a - b) / b == a / b - 1.0
  {
    ScaledBack(a, b);
    ScaledBack(a - b, b);
    ScaledIsLinear(a / b, 1.0, b);
    SameFactor((a - b) / b, a / b - 1.0, b);
  }

  lemma QuotientSign(a: real, b: real)
    requires b != 0.0
    ensures a / b < 0.0 <==> (if b > 0.0 then a < 0.0 else a > 0.0)
    ensures a / b > 0.0 <==> (if b > 0.0 then a > 0.0 else a < 0.0)
  {
    var q := a / b;
    assert a == Scaled(q, b);
    SignOfProduct(q, b);
  }

  lemma SignOfProduct(q: real, b: real)
    requires b != 0.0
    ensures Scaled(q, b) > 0.0 <==> (q > 0.0) == (b > 0.0) && q != 0.0
    ensures Scaled(q, b) == 0.0 <==> q == 0.0
  {
    if q > 0.0 && b < 0.0 {
      assert Scaled(q, -b) > 0.0;
    } else if q < 0.0 && b > 0.0 {
      assert Scaled(-q, b) > 0.0;
    } else if q < 0.0 && b < 0.0 {
      assert Scaled(-q, -b) > 0.0;
    }
  }

  /** The gains found by the first few ranks are never negative and never above the best, or the same below zero, or
      always the same share of the best; or there is nothing to gain in total by any first few ranks. */
  ghost predicate Fair(a: seq<real>, b: seq<real>) {
    || (forall j: nat :: Total(b, j) == 0.0)
    || (forall j: nat :: 0.0 <= Total(a, j) <= Total(b, j))
    || (forall j: nat :: Total(b, j) <= Total(a, j) <= 0.0)
    || (exists share :: 0.0 <= share <= 1.0 && SameShare(a, b, share))
  }

  ghost predicate SameShare(a: seq<real>, b: seq<real>, share: real) {
    forall j: nat :: Total(a, j) == Scaled(Total(b, j), share)
  }

  // A fair ranking is bounded.

  lemma {:induction false} ShareIsKept(a: seq<real>, b: seq<real>, share: real, n: nat, factor: nat -> real)
    requires SameShare(a, b, share)
    ensures Discounted(a, n, factor) == Scaled(Discounted(b, n, factor), share)
  {
    if n > 0 {
      ShareIsKept(a, b, share, n - 1, factor);
      assert Total(a, n) == Scaled(Total(b, n), share) && Total(a, n - 1) == Scaled(Total(b, n - 1), share);
      ScaledIsLinear(Total(b, n), Total(b, n - 1), share);
      assert At(a, n - 1) == Scaled(At(b, n - 1), share);
      ScaledCommutes(At(b, n - 1), share, factor(n));
      ScaledIsLinear(Discounted(b, n - 1, factor), Scaled(At(b, n - 1), factor(n)), share);
    }
  }

  lemma ScaledCommutes(x: real, f: real, g: real)
    ensures Scaled(Scaled(x, f), g) == Scaled(Scaled(x, g), f)
  {
  }

  lemma {:induction false} ZeroTotals(b: seq<real>, n: nat, factor: nat -> real)
    requires forall j: nat :: Total(b, j) == 0.0
    ensures Discounted(b, n, factor) == 0.0
  {
    if n > 0 {
      ZeroTotals(b, n - 1, factor);
      assert Total(b, n) == 0.0 && Total(b, n - 1) == 0.0;
      assert Scaled(0.0, factor(n)) == 0.0;
    }
  }

  lemma {:induction false} NothingTotals(n: nat, factor: nat -> real)
    ensures Total([], n) == 0.0 && Discounted([], n, factor) == 0.0
  {
    if n > 0 {
      NothingTotals(n - 1, factor);
      assert Scaled(0.0, factor(n)) == 0.0;
    }
  }

  lemma FairIsInUnit(a: seq<real>, b: seq<real>, n: nat, factor: nat -> real)
    requires Fair(a, b) && IsDiscount(factor)
    ensures !OutOfUnit(Discounted(a, n, factor), Discounted(b, n, factor))
  {
    forall j: nat ensures Total([], j) == 0.0 {
      NothingTotals(j, factor);
    }
    NothingTotals(n, factor);
    if forall j: nat :: Total(b, j) == 0.0 {
      ZeroTotals(b, n, factor);
    } else if forall j: nat :: 0.0 <= Total(a, j) <= Total(b, j) {
      Rearrangement(a, b, n, factor);
      Rearrangement([], a, n, factor);
    } else if forall j: nat :: Total(b, j) <= Total(a, j) <= 0.0 {
      Rearrangement(b, a, n, factor);
      Rearrangement(a, [], n, factor);
    } else {
      var share :| 0.0 <= share <= 1.0 && SameShare(a, b, share);
      ShareIsKept(a, b, share, n, factor);
      ShareInUnit(Discounted(b, n, factor), share);
    }
  }

  lemma ShareInUnit(b: real, share: real)
    requires 0.0 <= share <= 1.0
    ensures !OutOfUnit(Scaled(b, share), b)
  {
    if b > 0.0 {
      ScaledIsMonotone(b, b, share, 1.0);
    } else {
      ScaledIsMonotone(-b, -b, share, 1.0);
      assert Scaled(-b, share) == -Scaled(b, share);
    }
  }

  // A bounded ranking is fair: two ranks can be stressed against each other.

  /** Extra weight down to rank j, extra weight down to rank m, and a little everywhere. */
  function Stress(j: nat, x: real, m: nat, y: real, low: real): nat -> real {
    n => (if n <= j then x else 0.0) + (if n <= m then y else 0.0) + low
  }

  function Mixed(values: seq<real>, j: nat, x: real, m: nat, y: real): real {
    Scaled(Total(values, j), x) + Scaled(Total(values, m), y)
  }

  lemma {:induction false} Stressed(values: seq<real>, n: nat, j: nat, x: real, m: nat, y: real, low: real)
    ensures Discounted(values, n, Stress(j, x, m, y, low))
      == Mixed(values, Smaller(j, n), x, Smaller(m, n), y) + Scaled(Total(values, n), low)
  {
    if n == 0 {
      assert Scaled(0.0, x) == 0.0 && Scaled(0.0, y) == 0.0 && Scaled(0.0, low) == 0.0;
    } else {
      Stressed(values, n - 1, j, x, m, y, low);
      var v := At(values, n - 1);
      SumOfThree(v, if n <= j then x else 0.0, if n <= m then y else 0.0, low);
      ScaledIsLinear(Total(values, n - 1), v, x);
      ScaledIsLinear(Total(values, n - 1), v, y);
      ScaledIsLinear(Total(values, n - 1), v, low);
      assert Scaled(v, 0.0) == 0.0;
    }
  }

  lemma SumOfThree(v: real, f: real, g: real, h: real)
    ensures Scaled(v, f + g + h) == Scaled(v, f) + Scaled(v, g) + Scaled(v, h)
  {
  }

  /** A positive constant that keeps two positive values positive. */
  lemma KeepBoth(p: real, q: real, below: real, under: real) returns (low: real)
    requires p > 0.0 && q > 0.0
    ensures low > 0.0 && p + Scaled(below, low) > 0.0 && q + Scaled(under, low) > 0.0
  {
    LowEnoughKeepsGap(p, below);
    LowEnoughKeepsGap(q, under);
    var f, g := LowEnough(p, below), LowEnough(q, under);
    low := if f < g then f else g;
    StillKept(p, below, f, low);
    StillKept(q, under, g, low);
  }

  lemma StillKept(p: real, below: real, f: real, low: real)
    requires p > 0.0 && p + Scaled(below, f) > 0.0 && 0.0 < low <= f
    ensures p + Scaled(below, low) > 0.0
  {
    if below >= 0.0 {
      ScaledIsMonotone(below, below, low, low);
    } else {
      ScaledIsMonotone(-below, -below, low, f);
      assert Scaled(-below, low) == -Scaled(below, low) && Scaled(-below, f) == -Scaled(below, f);
    }
  }

  /** A quotient out of bounds stays there when both sides change little. */
  lemma StaysOut(a: real, b: real, more: real, further: real) returns (low: real)
    requires OutOfUnit(a, b)
    ensures low > 0.0 && OutOfUnit(a + Scaled(more, low), b + Scaled(further, low))
  {
    if b > 0.0 && a < 0.0 {
      low := KeepBoth(b, -a, further, -more);
      assert Scaled(-more, low) == -Scaled(more, low);
    } else if b > 0.0 {
      low := KeepBoth(b, a - b, further, more - further);
      ScaledIsLinear(more, further, low);
    } else if a > 0.0 {
      low := KeepBoth(-b, a, -further, more);
      assert Scaled(-further, low) == -Scaled(further, low);
    } else {
      low := KeepBoth(-b, b - a, -further, further - more);
      assert Scaled(-further, low) == -Scaled(further, low);
      ScaledIsLinear(further, more, low);
    }
  }

  /** A mixture of two ranks' totals that is out of bounds shows under some discount. */
  lemma MixtureShows(a: seq<real>, b: seq<real>, n: nat, j: nat, x: real, m: nat, y: real)
      returns (factor: nat -> real)
    requires j <= n && m <= n && x >= 0.0 && y >= 0.0
    requires OutOfUnit(Mixed(a, j, x, m, y), Mixed(b, j, x, m, y))
    ensures IsDiscount(factor) && OutOfUnit(Discounted(a, n, factor), Discounted(b, n, factor))
  {
    var low := StaysOut(Mixed(a, j, x, m, y), Mixed(b, j, x, m, y), Total(a, n), Total(b, n));
    factor := Stress(j, x, m, y, low);
    Stressed(a, n, j, x, m, y, low);
    Stressed(b, n, j, x, m, y, low);
  }

  /** No mixture of two ranks' totals is out of bounds. */
  ghost predicate NoMixtureOut(a: seq<real>, b: seq<real>) {
    forall j: nat, x: real, m: nat, y: real :: x >= 0.0 && y >= 0.0 ==>
      !OutOfUnit(Mixed(a, j, x, m, y), Mixed(b, j, x, m, y))
  }

  lemma EachRankInUnit(a: seq<real>, b: seq<real>, j: nat)
    requires NoMixtureOut(a, b)
    ensures !OutOfUnit(Total(a, j), Total(b, j))
  {
    assert Mixed(a, j, 1.0, j, 0.0) == Total(a, j) && Mixed(b, j, 1.0, j, 0.0) == Total(b, j);
    assert !OutOfUnit(Mixed(a, j, 1.0, j, 0.0), Mixed(b, j, 1.0, j, 0.0));
  }

  lemma InBounds(a: seq<real>, b: seq<real>, j: nat, x: real, m: nat, y: real)
    requires NoMixtureOut(a, b) && x >= 0.0 && y >= 0.0
    ensures !OutOfUnit(Mixed(a, j, x, m, y), Mixed(b, j, x, m, y))
  {
  }

  /** Where nothing could be gained in total, nothing is, unless that is so everywhere. */
  lemma ZeroNeedsZero(a: seq<real>, b: seq<real>, p: nat, j: nat)
    requires NoMixtureOut(a, b) && Total(b, p) != 0.0 && Total(b, j) == 0.0
    ensures Total(a, j) == 0.0
  {
    EachRankInUnit(a, b, p);
    if Total(a, j) != 0.0 {
      var x := Overweighs(Total(a, j), Total(a, p), Total(b, p));
      assert Scaled(0.0, x) == 0.0 && Scaled(Total(a, p), 1.0) == Total(a, p) && Scaled(Total(b, p), 1.0) == Total(b, p);
      InBounds(a, b, j, x, p, 1.0);
    }
  }

  /** Enough of something outweighs any bound. */
  lemma Overweighs(aj: real, ap: real, bp: real) returns (x: real)
    requires aj != 0.0 && bp != 0.0 && !OutOfUnit(ap, bp)
    ensures x > 0.0 && OutOfUnit(Scaled(aj, x) + ap, bp)
  {
    var size := if aj > 0.0 then aj else -aj;
    var reach := if bp > 0.0 then bp else -bp;
    x := 2.0 * reach / size;
    QuotientSign(2.0 * reach, size);
    ScaledBack(2.0 * reach, size);
    assert Scaled(-size, x) == -Scaled(size, x);
  }

  lemma ScaledBack(a: real, b: real)
    requires b != 0.0
    ensures Scaled(b, a / b) == a
  {
  }

  /** Where the best totals have opposite signs, the same share of both is found. */
  lemma OppositeShares(a: seq<real>, b: seq<real>, j: nat, m: nat)
    requires NoMixtureOut(a, b) && Total(b, j) > 0.0 && Total(b, m) < 0.0
    ensures Scaled(Total(a, j), Total(b, m)) == Scaled(Total(a, m), Total(b, j))
  {
    var aj, am, bj, bm := Total(a, j), Total(a, m), Total(b, j), Total(b, m);
    var excess := Scaled(am, bj) - Scaled(aj, bm);
    if excess != 0.0 {
      var size := if excess > 0.0 then excess else -excess;
      var t := size / (2.0 * bj);
      QuotientSign(size, 2.0 * bj);
      ScaledBack(size, 2.0 * bj);
      assert Scaled(2.0 * bj, t) == 2.0 * Scaled(bj, t);
      Balance(aj, am, bj, bm, t);
      EachRankInUnit(a, b, j);
      ScaledIsMonotone(aj, bj, t, t);
      InBounds(a, b, j, t - bm, m, bj);
    }
  }

  lemma Balance(aj: real, am: real, bj: real, bm: real, t: real)
    ensures Scaled(bj, t - bm) + Scaled(bm, bj) == Scaled(bj, t)
    ensures Scaled(aj, t - bm) + Scaled(am, bj) == Scaled(aj, t) + (Scaled(am, bj) - Scaled(aj, bm))
  {
    assert Scaled(bj, t - bm) == Scaled(bj, t) - bj * bm;
    assert Scaled(aj, t - bm) == Scaled(aj, t) - Scaled(aj, bm);
  }

  lemma ShareOf(aj: real, bj: real, am: real, bm: real)
    requires bj != 0.0 && bm != 0.0 && Scaled(aj, bm) == Scaled(am, bj)
    ensures aj == Scaled(bj, am / bm)
  {
    assert am == Scaled(bm, am / bm) by {
      ScaledBack(am, bm);
    }
    var share := am / bm;
    assert Scaled(am, bj) == Scaled(Scaled(bj, share), bm);
    SameFactor(aj, Scaled(bj, share), bm);
  }

  lemma SameFactor(x: real, y: real, f: real)
    requires f != 0.0 && Scaled(x, f) == Scaled(y, f)
    ensures x == y
  {
    ScaledIsLinear(x, y, f);
    SignOfProduct(x - y, f);
  }

  lemma MixedSignsShare(a: seq<real>, b: seq<real>, p: nat, q: nat)
    requires NoMixtureOut(a, b) && Total(b, p) > 0.0 && Total(b, q) < 0.0
    ensures exists share :: 0.0 <= share <= 1.0 && SameShare(a, b, share)
  {
    var share := Total(a, p) / Total(b, p);
    EachRankInUnit(a, b, p);
    OutOfUnitExactlyWhen(Total(a, p), Total(b, p));
    OppositeShares(a, b, p, q);
    ShareOf(Total(a, q), Total(b, q), Total(a, p), Total(b, p));
    forall j: nat ensures Total(a, j) == Scaled(Total(b, j), share) {
      if Total(b, j) == 0.0 {
        ZeroNeedsZero(a, b, p, j);
      } else if Total(b, j) < 0.0 {
        OppositeShares(a, b, p, j);
        ShareOf(Total(a, j), Total(b, j), Total(a, p), Total(b, p));
      } else {
        OppositeShares(a, b, j, q);
        ShareOf(Total(a, j), Total(b, j), Total(a, q), Total(b, q));
        ScaledBackQuotient(Total(a, q), Total(b, q), share);
      }
    }
    assert SameShare(a, b, share);
  }

  lemma ScaledBackQuotient(a: real, b: real, share: real)
    requires b != 0.0 && a == Scaled(b, share)
    ensures a / b == share
  {
    ScaledBack(a, b);
    SameFactor(a / b, share, b);
  }

  lemma NoMixtureOutIsFair(a: seq<real>, b: seq<real>)
    requires NoMixtureOut(a, b)
    ensures Fair(a, b)
  {
    if p: nat :| Total(b, p) > 0.0 {
      if q: nat :| Total(b, q) < 0.0 {
        MixedSignsShare(a, b, p, q);
      } else {
        forall j: nat ensures 0.0 <= Total(a, j) <= Total(b, j) {
          EachRankInUnit(a, b, j);
          if Total(b, j) == 0.0 {
            ZeroNeedsZero(a, b, p, j);
          }
        }
      }
    } else if q: nat :| Total(b, q) < 0.0 {
      forall j: nat ensures Total(b, j) <= Total(a, j) <= 0.0 {
        EachRankInUnit(a, b, j);
        if Total(b, j) == 0.0 {
          ZeroNeedsZero(a, b, q, j);
        }
      }
    }
  }

  lemma NormalizedOut(
      ranked: seq<string>, universe: seq<string>, k: nat, gains: Option<map<string, real>>, factor: nat -> real,
      n: nat)
    requires |Gained(ranked, universe, k, gains)| <= n && |Best(universe, k, gains)| <= n
    ensures 0.0 <= Normalized(ranked, universe, k, gains, factor) <= 1.0 <==>
      !OutOfUnit(Discounted(Gained(ranked, universe, k, gains), n, factor),
                 Discounted(Best(universe, k, gains), n, factor))
  {
    GainsOfPrefixes(ranked, universe, k, gains, factor, n);
    ByGainKeeps(universe, gains);
    var ideal := IdealGain(universe, k, gains, factor);
    if ideal != 0.0 {
      OutOfUnitExactlyWhen(ActualGain(ranked, universe, k, gains, factor), ideal);
    }
  }

  /** For all gains, whatever their signs: nDCG stays in [0,1] under every discount exactly when the ranking is fair. */
  lemma BoundedExactlyWhen(ranked: seq<string>, universe: seq<string>, k: nat, gains: Option<map<string, real>>)
    ensures (forall factor: nat -> real :: IsDiscount(factor) ==>
               0.0 <= Normalized(ranked, universe, k, gains, factor) <= 1.0)
      <==> Fair(Gained(ranked, universe, k, gains), Best(universe, k, gains))
  {
    var a, b := Gained(ranked, universe, k, gains), Best(universe, k, gains);
    if Fair(a, b) {
      forall factor: nat -> real | IsDiscount(factor)
        ensures 0.0 <= Normalized(ranked, universe, k, gains, factor) <= 1.0
      {
        FairIsInUnit(a, b, |a| + |b|, factor);
        NormalizedOut(ranked, universe, k, gains, factor, |a| + |b|);
      }
    } else {
      if NoMixtureOut(a, b) {
        NoMixtureOutIsFair(a, b);
      }
      var j: nat, x: real, m: nat, y: real :| x >= 0.0 && y >= 0.0
        && OutOfUnit(Mixed(a, j, x, m, y), Mixed(b, j, x, m, y));
      var n := |a| + |b| + j + m;
      var factor := MixtureShows(a, b, n, j, x, m, y);
      NormalizedOut(ranked, universe, k, gains, factor, n);
      assert !(0.0 <= Normalized(ranked, universe, k, gains, factor) <= 1.0);
    }
  }

  /** A negative gain among the relevant ids lowers the ideal below what a ranking without it reaches. */
  lemma NegativeGainExceedsOne(factor: nat -> real)
    requires IsDiscount(factor) && factor(2) < factor(1)
    ensures Normalized(["a"], ["a", "b"], 2, Some(map["a" := 1.0, "b" := -1.0]), factor) > 1.0
  {
    var gains := Some(map["a" := 1.0, "b" := -1.0]);
    var universe := ["a", "b"];
    assert "a"[0] != "b"[0];
    assert universe[..1] == ["a"] && ["a"][..0] == [];
    assert ByGain(["a"], gains) == ["a"];
    assert ["a"][1..] == [] && ByGain(universe, gains) == universe;
    var found, sorted := Found(["a"], Elements(universe), gains), GainsOf(universe, gains);
    assert universe[0] in universe && found == [1.0] && sorted == [1.0, -1.0];
    assert Scaled(1.0, factor(1)) == factor(1) && Scaled(-1.0, factor(2)) == -factor(2);
    assert Discounted(found, 1, factor) == factor(1);
    assert Discounted(sorted, 1, factor) == factor(1) && Discounted(sorted, 2, factor) == factor(1) - factor(2);
    assert factor(2) > 0.0;
    ExceedsOne(factor(1), factor(1) - factor(2));
  }

  lemma {:induction false} DiscountedPointwise(a: seq<real>, b: seq<real>, n: nat, factor: nat -> real)
    requires n <= |a| && n <= |b| && forall i :: 0 <= i < n ==> a[i] == b[i]
    ensures Discounted(a, n, factor) == Discounted(b, n, factor)
  {
    if n > 0 {
      DiscountedPointwise(a, b, n - 1, factor);
    }
  }

  /** Listing the relevant ids by gain reaches the ideal. */
  lemma IdealIsReached(universe: seq<string>, k: nat, gains: Option<map<string, real>>, factor: nat -> real)
    ensures ActualGain(ByGain(universe, gains), universe, k, gains, factor) == IdealGain(universe, k, gains, factor)
  {
    var best := ByGain(universe, gains);
    ByGainKeeps(universe, gains);
    forall i | 0 <= i < |best| ensures best[i] in Elements(universe) {
      assert best[i] in best;
    }
    DiscountedPointwise(
      Found(best, Elements(universe), gains), GainsOf(best, gains), Smaller(k, |best|), factor);
  }

  /** Two listings of the same ids in descending order of gain have the same gains. */
  lemma SameGains(one: seq<string>, other: seq<string>, gains: Option<map<string, real>>)
    requires Distinct(one) && Distinct(other) && Elements(one) == Elements(other)
    ensures GainsOf(ByGain(one, gains), gains) == GainsOf(ByGain(other, gains), gains)
  {
    var a, b := ByGain(one, gains), ByGain(other, gains);
    ByGainDistinct(one, gains);
    ByGainDistinct(other, gains);
    DistinctCardinality(one);
    DistinctCardinality(other);
    ByGainKeeps(one, gains);
    ByGainKeeps(other, gains);
    forall m | 0 <= m < |a| ensures GainOf(gains, a[m]) == GainOf(gains, b[m]) {
      SamePrefixSum(a, b, m, gains);
      SamePrefixSum(a, b, m + 1, gains);
      SumPrefix(a, m, gains);
      SumPrefix(b, m, gains);
    }
  }

  lemma SamePrefixSum(a: seq<string>, b: seq<string>, m: nat, gains: Option<map<string, real>>)
    requires Distinct(a) && Distinct(b) && Elements(a) == Elements(b)
    requires Descending(a, gains) && Descending(b, gains) && m <= |a| == |b|
    ensures SumOf(a[..m], gains) == SumOf(b[..m], gains)
  {
    forall i | 0 <= i < m ensures a[..m][i] in b && b[..m][i] in a {
      assert a[i] in Elements(a) && b[i] in Elements(b);
    }
    BestIdsGainMost(a[..m], b, gains);
    BestIdsGainMost(b[..m], a, gains);
  }

  /** The order in which the frozen set of relevant ids is iterated does not matter. */
  lemma IterationOrderIsIrrelevant(
      ranked: seq<string>, one: seq<string>, other: seq<string>, k: nat, gains: Option<map<string, real>>,
      factor: nat -> real)
    requires Distinct(one) && Distinct(other) && Elements(one) == Elements(other)
    ensures Normalized(ranked, one, k, gains, factor) == Normalized(ranked, other, k, gains, factor)
  {
    SameGains(one, other, gains);
    assert one == [] <==> other == [] by {
      assert one != [] ==> one[0] in Elements(one);
      assert other != [] ==> other[0] in Elements(other);
    }
  }

  /** A result listed twice is paid twice: the bound needs a duplicate-free ranking. */
  lemma RepeatedResultExceedsOne(id: string, factor: nat -> real)
    requires IsDiscount(factor)
    ensures Normalized([id, id], [id], 2, None, factor) > 1.0
  {
    var found := Found([id, id], Elements([id]), None);
    var sorted := GainsOf(ByGain([id], None), None);
    assert [id][..0] == [] && ByGain([id], None) == [id];
    assert id in Elements([id]);
    assert found == [1.0, 1.0] && sorted == [1.0];
    assert Discounted(found, 1, factor) == factor(1) && Discounted(found, 2, factor) == factor(1) + factor(2);
    assert Discounted(sorted, 1, factor) == factor(1);
    assert factor(1) > 0.0 && factor(2) > 0.0;
    ExceedsOne(factor(1) + factor(2), factor(1));
  }

  lemma ExceedsOne(a: real, b: real)
    requires 0.0 < b < a
    ensures a / b > 1.0
  {
  }

  // ----- Average precision -----

  function CountHits(ranked: seq<string>, relevant: set<string>, j: nat): nat
    requires j <= |ranked|
  {
    if j == 0 then 0 else CountHits(ranked, relevant, j - 1) + (if ranked[j - 1] in relevant then 1 else 0)
  }

  /** The sum of the precision at every relevant result among the first j. */
  function PrecisionSum(ranked: seq<string>, relevant: set<string>, j: nat): real
    requires j <= |ranked|
  {
    if j == 0 then 0.0
    else
      PrecisionSum(ranked, relevant, j - 1)
      + (if ranked[j - 1] in relevant then CountHits(ranked, relevant, j) as real / j as real else 0.0)
  }

  method AveragePrecision(ranked: seq<string>, relevant: set<string>) returns (r: real)
    ensures r == if relevant == {} then 0.0 else PrecisionSum(ranked, relevant, |ranked|) / |relevant| as real
  {
    if relevant == {} {
      return 0.0;
    }
    var ap, hits, i := 0.0, 0, 0;
    while i < |ranked|
      invariant 0 <= i <= |ranked|
      invariant ap == PrecisionSum(ranked, relevant, i) && hits == CountHits(ranked, relevant, i)
    {
      if ranked[i] in relevant {
        hits := hits + 1;
        ap := ap + hits as real / (i + 1) as real;
      }
      i := i + 1;
    }
    assert |relevant| > 0;
    r := ap / |relevant| as real;
  }

  lemma {:induction false} CountBound(ranked: seq<string>, relevant: set<string>, j: nat)
    requires j <= |ranked|
    ensures CountHits(ranked, relevant, j) <= j
    ensures CountHits(ranked, relevant, j) == |Hits(ranked, relevant, j)|
    ensures CountHits(ranked, relevant, j) == j <==> forall i :: 0 <= i < j ==> ranked[i] in relevant
  {
    if j > 0 {
      CountBound(ranked, relevant, j - 1);
    }
  }

  /** Each term is at most one, and equals one exactly when every earlier result was relevant too. */
  lemma {:induction false} PrecisionBound(ranked: seq<string>, relevant: set<string>, j: nat)
    requires j <= |ranked|
    ensures 0.0 <= PrecisionSum(ranked, relevant, j) <= CountHits(ranked, relevant, j) as real
    ensures PrecisionSum(ranked, relevant, j) == CountHits(ranked, relevant, j) as real
      <==> forall i :: 0 <= i < CountHits(ranked, relevant, j) ==> i < j && ranked[i] in relevant
  {
    if j > 0 {
      PrecisionBound(ranked, relevant, j - 1);
      CountBound(ranked, relevant, j - 1);
      CountBound(ranked, relevant, j);
      var c := CountHits(ranked, relevant, j);
      if ranked[j - 1] in relevant {
        TermBound(c, j);
        if forall i :: 0 <= i < c ==> i < j && ranked[i] in relevant {
          PrefixFull(ranked, relevant, j, c);
        }
      }
    }
  }

  lemma TermBound(c: nat, j: nat)
    requires 0 < c <= j
    ensures 0.0 < c as real / j as real <= 1.0 && (c as real / j as real == 1.0 <==> c == j)
  {
  }

  /** If the last result counted is relevant and the relevant ones come first, there is nothing else. */
  lemma PrefixFull(ranked: seq<string>, relevant: set<string>, j: nat, c: nat)
    requires 0 < j <= |ranked| && c == CountHits(ranked, relevant, j) <= j && ranked[j - 1] in relevant
    requires forall i :: 0 <= i < c ==> ranked[i] in relevant
    ensures c == j
  {
    if c < j {
      CountBound(ranked, relevant, c);
      CountGrows(ranked, relevant, c, j - 1);
    }
  }

  lemma {:induction false} CountGrows(ranked: seq<string>, relevant: set<string>, i: nat, j: nat)
    requires i <= j <= |ranked|
    ensures CountHits(ranked, relevant, i) <= CountHits(ranked, relevant, j)
    decreases j
  {
    if i < j {
      CountGrows(ranked, relevant, i, j - 1);
    }
  }

  lemma CountAtMostRelevant(ranked: seq<string>, relevant: set<string>)
    requires Distinct(ranked)
    ensures CountHits(ranked, relevant, |ranked|) <= |relevant|
    ensures CountHits(ranked, relevant, |ranked|) == |relevant| <==> forall id :: id in relevant ==> id in ranked
  {
    var n := |ranked|;
    var hits := Hits(ranked, relevant, n);
    CountBound(ranked, relevant, n);
    assert ranked[..n] == ranked;
    HitsDistinct(ranked, relevant, n);
    DistinctCardinality(hits);
    SubsetCardinality(Elements(hits), relevant);
    forall id | id in ranked && id in relevant ensures id in hits {
      var i :| 0 <= i < n && ranked[i] == id;
      HitsContain(ranked, relevant, n, i);
    }
    if forall id :: id in relevant ==> id in ranked {
      assert Elements(hits) == relevant;
    }
    if |hits| == |relevant| {
      assert Elements(hits) == relevant;
      assert forall id | id in relevant :: id in hits;
    }
  }

  lemma {:induction false} HitsContain(ranked: seq<string>, relevant: set<string>, j: nat, i: nat)
    requires i < j <= |ranked| && ranked[i] in relevant
    ensures ranked[i] in Hits(ranked, relevant, j)
  {
    if i < j - 1 {
      HitsContain(ranked, relevant, j - 1, i);
    }
  }

  /** Average precision of a duplicate-free ranking lies between zero and one, and is one exactly when the relevant ids
      are found first, before anything else. */
  lemma AveragePrecisionInUnit(ranked: seq<string>, relevant: set<string>)
    requires Distinct(ranked) && relevant != {}
    ensures 0.0 <= PrecisionSum(ranked, relevant, |ranked|) / |relevant| as real <= 1.0
    ensures PrecisionSum(ranked, relevant, |ranked|) / |relevant| as real == 1.0
      <==> |relevant| <= |ranked| && Elements(ranked[..|relevant|]) == relevant
  {
    var n, m := |ranked|, |relevant|;
    var total, c := PrecisionSum(ranked, relevant, n), CountHits(ranked, relevant, n);
    PrecisionBound(ranked, relevant, n);
    CountAtMostRelevant(ranked, relevant);
    CountBound(ranked, relevant, n);
    assert m > 0;
    QuotientInUnit(total, m as real);
    QuotientIsOne(total, m as real);
    if m <= n && Elements(ranked[..m]) == relevant {
      forall id | id in relevant ensures id in ranked {
        assert id in ranked[..m];
      }
      forall i | 0 <= i < c ensures ranked[i] in relevant {
        assert ranked[i] == ranked[..m][i] && ranked[i] in ranked[..m];
      }
    }
    if total == m as real {
      FirstAreRelevant(ranked, relevant);
    }
  }

  lemma QuotientIsOne(a: real, b: real)
    requires b > 0.0
    ensures a / b == 1.0 <==> a == b
  {
  }

  lemma FirstAreRelevant(ranked: seq<string>, relevant: set<string>)
    requires Distinct(ranked) && CountHits(ranked, relevant, |ranked|) == |relevant| <= |ranked|
    requires forall i :: 0 <= i < |relevant| ==> ranked[i] in relevant
    ensures Elements(ranked[..|relevant|]) == relevant
  {
    var first := ranked[..|relevant|];
    assert Distinct(first);
    DistinctCardinality(first);
    SubsetCardinality(Elements(first), relevant);
  }

  /** A result listed twice is counted twice: the bound needs more than a relevant ranking. */
  lemma RepeatedResultDoublesPrecision(id: string)
    ensures PrecisionSum([id, id], {id}, 2) / |{id}| as real == 2.0
  {
    assert CountHits([id, id], {id}, 1) == 1 && CountHits([id, id], {id}, 2) == 2;
    assert PrecisionSum([id, id], {id}, 1) == 1.0;
  }

  /** The relevant occurrences of a ranking, then the others. */
  function HitsFirst(ranked: seq<string>, relevant: set<string>): seq<string> {
    if ranked == [] then []
    else
      var n := |ranked| - 1;
      var before := HitsFirst(ranked[..n], relevant);
      if ranked[n] in relevant then [ranked[n]] + before else before + [ranked[n]]
  }

  lemma {:induction false} HitsFirstKeeps(ranked: seq<string>, relevant: set<string>)
    ensures multiset(HitsFirst(ranked, relevant)) == multiset(ranked)
    ensures |HitsFirst(ranked, relevant)| == |ranked| && CountHits(ranked, relevant, |ranked|) <= |ranked|
    ensures forall i :: 0 <= i < |ranked| ==>
      (HitsFirst(ranked, relevant)[i] in relevant <==> i < CountHits(ranked, relevant, |ranked|))
  {
    if ranked != [] {
      var n := |ranked| - 1;
      HitsFirstKeeps(ranked[..n], relevant);
      assert ranked == ranked[..n] + [ranked[n]];
      CountPrefix(ranked, relevant, n, n);
    }
  }

  lemma {:induction false} CountPrefix(ranked: seq<string>, relevant: set<string>, m: nat, j: nat)
    requires j <= m <= |ranked|
    ensures CountHits(ranked[..m], relevant, j) == CountHits(ranked, relevant, j)
  {
    if j > 0 {
      CountPrefix(ranked, relevant, m, j - 1);
    }
  }

  lemma {:induction false} CountRemove(ranked: seq<string>, p: nat, relevant: set<string>)
    requires p < |ranked|
    ensures CountHits(ranked, relevant, |ranked|)
      == CountHits(Remove(ranked, p), relevant, |ranked| - 1) + (if ranked[p] in relevant then 1 else 0)
  {
    var n := |ranked| - 1;
    CountPrefix(ranked, relevant, n, n);
    if p == n {
      assert Remove(ranked, p) == ranked[..n];
    } else {
      CountRemove(ranked[..n], p, relevant);
      assert Remove(ranked, p)[..n - 1] == Remove(ranked[..n], p);
      CountPrefix(Remove(ranked, p), relevant, n - 1, n - 1);
    }
  }

  lemma RemoveFromBag(ranked: seq<string>, p: nat)
    requires p < |ranked|
    ensures multiset(Remove(ranked, p)) == multiset(ranked) - multiset{ranked[p]}
  {
    assert ranked == ranked[..p] + [ranked[p]] + ranked[p + 1..];
  }

  /** How many relevant occurrences there are does not depend on the order. */
  lemma {:induction false} CountPermutes(a: seq<string>, b: seq<string>, relevant: set<string>)
    requires multiset(a) == multiset(b)
    ensures |a| == |b| && CountHits(a, relevant, |a|) == CountHits(b, relevant, |b|)
    decreases |a|
  {
    assert |multiset(a)| == |a| && |multiset(b)| == |b|;
    if a != [] {
      var n := |a| - 1;
      assert a[n] in multiset(b);
      var p :| 0 <= p < |b| && b[p] == a[n];
      RemoveFromBag(a, n);
      RemoveFromBag(b, p);
      CountRemove(a, n, relevant);
      CountRemove(b, p, relevant);
      CountPermutes(Remove(a, n), Remove(b, p), relevant);
    }
  }

  /** Average precision stays at most one in whatever order the results come exactly when there are no more relevant
      occurrences than relevant ids. */
  lemma PrecisionBoundedExactlyWhen(ranked: seq<string>, relevant: set<string>)
    requires relevant != {}
    ensures (forall order: seq<string> :: multiset(order) == multiset(ranked) ==>
               PrecisionSum(order, relevant, |order|) <= |relevant| as real)
      <==> CountHits(ranked, relevant, |ranked|) <= |relevant|
  {
    if CountHits(ranked, relevant, |ranked|) <= |relevant| {
      forall order: seq<string> | multiset(order) == multiset(ranked)
        ensures PrecisionSum(order, relevant, |order|) <= |relevant| as real
      {
        CountPermutes(order, ranked, relevant);
        PrecisionBound(order, relevant, |order|);
      }
    } else {
      var order := HitsFirst(ranked, relevant);
      HitsFirstKeeps(ranked, relevant);
      CountPermutes(order, ranked, relevant);
      PrecisionBound(order, relevant, |order|);
      assert PrecisionSum(order, relevant, |order|) > |relevant| as real;
    }
  }

  // ----- Recall and reciprocal rank -----

  method RecallAtK(ranked: seq<string>, relevant: set<string>, k: int) returns (r: Result<real, MetricError>)
    ensures k < 0 <==> r == Err(NegativeCutoff)
    ensures k >= 0 && relevant == {} ==> r == Ok(0.0)
    ensures k >= 0 && relevant != {} ==>
      && r.Ok? && 0.0 <= r.value <= 1.0
      && r.value * |relevant| as real == |Elements(ranked[..Smaller(k, |ranked|)]) * relevant| as real
      && (r.value == 1.0 <==> relevant <= Elements(ranked[..Smaller(k, |ranked|)]))
  {
    if k < 0 {
      return Err(NegativeCutoff);
    }
    if relevant == {} {
      return Ok(0.0);
    }
    var top := Elements(ranked[..Smaller(k, |ranked|)]);
    var hits := |top * relevant|;
    assert |relevant| > 0;
    SubsetCardinality(top * relevant, relevant);
    QuotientInUnit(hits as real, |relevant| as real);
    QuotientIsOne(hits as real, |relevant| as real);
    r := Ok(hits as real / |relevant| as real);
    assert hits == |relevant| <==> relevant <= top by {
      assert top * relevant == relevant <==> relevant <= top;
    }
  }

  ghost predicate IsFirstHit(ranked: seq<string>, relevant: set<string>, i: nat)
    requires i < |ranked|
  {
    ranked[i] in relevant && forall j :: 0 <= j < i ==> ranked[j] !in relevant
  }

  method ReciprocalRank(ranked: seq<string>, relevant: set<string>) returns (r: real)
    ensures 0.0 <= r <= 1.0
    ensures r == 0.0 <==> forall i :: 0 <= i < |ranked| ==> ranked[i] !in relevant
    ensures forall i :: 0 <= i < |ranked| && IsFirstHit(ranked, relevant, i) ==> r == 1.0 / (i + 1) as real
  {
    if relevant == {} {
      return 0.0;
    }
    var i := 0;
    while i < |ranked|
      invariant 0 <= i <= |ranked|
      invariant forall j :: 0 <= j < i ==> ranked[j] !in relevant
    {
      if ranked[i] in relevant {
        TermBound(1, i + 1);
        return 1.0 / (i + 1) as real;
      }
      i := i + 1;
    }
    r := 0.0;
  }
}
