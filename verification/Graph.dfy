/** Bounded-depth, best-weight traversal of the graph edges (searchkernel/indices/local.py): from one seed, or from
    several seeds with one query per hop. Edges are read as arcs in the direction of the traversal. */
module Graph {
  import opened Base
  import opened TopK

  /** An edge as the traversal follows it; incoming traversals follow edges backwards. */
  datatype Arc = Arc(from: string, to: string, kind: string, weight: real)

  datatype Edge = Edge(source: string, target: string, kind: string, weight: real)
  {
    function Along(incoming: bool): Arc {
      if incoming then Arc(target, source, kind, weight) else Arc(source, target, kind, weight)
    }
  }

  /** Which arcs a traversal may use: their heads are indexed records with canonical keys, of an allowed type. */
  datatype Scope = Scope(records: set<string>, canonical: set<string>, allowed: Option<set<string>>)
  {
    predicate Follows(a: Arc) {
      a.to in records && a.to in canonical && (allowed.Some? ==> a.kind in allowed.value)
    }
  }

  /** The weight of a longer walk. */
  function Times(weight: real, parent: real): real { weight * parent }

  /** Best edge type and weight found for each node. */
  type Best = map<string, (string, real)>

  // ----- One hop, as a fold over rows -----

  /** The weight a row offers its head, kept if it is the first or the best. */
  function Recorded(best: Best, a: Arc, first: bool): Best {
    var weight := Times(a.weight, if first || a.from !in best then 1.0 else best[a.from].1);
    if a.to !in best || weight > best[a.to].1 then best[a.to := (a.kind, weight)] else best
  }

  /** One row: ignored unless it leaves the frontier, may be followed and does not lead back to the seed. */
  function RelaxRow(best: Best, a: Arc, frontier: set<string>, seed: string, first: bool, scope: Scope): Best {
    if a.from !in frontier || !scope.Follows(a) || a.to == seed then best
    else
      Recorded(best, a, first)
  }

  function RelaxAll(best: Best, rows: seq<Arc>, frontier: set<string>, seed: string, first: bool, scope: Scope): Best {
    if rows == [] then best
    else
      var n := |rows| - 1;
      RelaxRow(RelaxAll(best, rows[..n], frontier, seed, first, scope), rows[n], frontier, seed, first, scope)
  }

  /** The heads reached from a frontier, the seed excepted. */
  function Next(rows: seq<Arc>, frontier: set<string>, seed: string, scope: Scope): set<string> {
    set a | a in rows && a.from in frontier && scope.Follows(a) && a.to != seed :: a.to
  }

  /** What is known after h hops: the best weights and the next frontier. Hop i reads its rows in the order
      `orders[i]`. */
  function Traverse(orders: seq<seq<Arc>>, seed: string, h: nat, scope: Scope): (Best, set<string>)
    requires h <= |orders|
  {
    if h == 0 then (map[], {seed})
    else
      var (best, frontier) := Traverse(orders, seed, h - 1, scope);
      (RelaxAll(best, orders[h - 1], frontier, seed, h == 1, scope), Next(orders[h - 1], frontier, seed, scope))
  }

  // ----- Walks -----

  /** A walk from the seed to v that does not come back to the seed. */
  ghost predicate IsWalk(arcs: set<Arc>, seed: string, w: seq<Arc>, v: string)
    decreases |w|
  {
    && w != []
    && var a := w[|w| - 1];
    && a in arcs && a.to == v && v != seed
    && (if |w| == 1 then a.from == seed else IsWalk(arcs, seed, w[..|w| - 1], a.from))
  }

  function Product(w: seq<Arc>): real {
    if w == [] then 1.0 else Times(w[|w| - 1].weight, Product(w[..|w| - 1]))
  }

  /** The arcs of a table that a scope follows. */
  function ArcsOf(table: set<Arc>, scope: Scope): set<Arc> {
    set a | a in table && scope.Follows(a)
  }

  /** Nodes other than the seed that are reachable within n hops, by any walk at all. */
  function Within(arcs: set<Arc>, seed: string, n: nat): set<string> {
    if n == 0 then {seed}
    else
      var before := Within(arcs, seed, n - 1);
      before + (set a | a in arcs && a.from in before :: a.to)
  }

  /** Nodes reached by a walk of exactly n arcs that avoids the seed. */
  function ReachIn(arcs: set<Arc>, seed: string, n: nat): set<string> {
    if n == 0 then {seed} else set a | a in arcs && a.from in ReachIn(arcs, seed, n - 1) && a.to != seed :: a.to
  }

  function ReachWithin(arcs: set<Arc>, seed: string, n: nat): set<string> {
    if n == 0 then {} else ReachWithin(arcs, seed, n - 1) + ReachIn(arcs, seed, n)
  }

  /** Coming back to the seed never reaches anything sooner. */
  lemma AvoidingSeedReachesAll(arcs: set<Arc>, seed: string, n: nat)
    ensures Within(arcs, seed, n) == {seed} + ReachWithin(arcs, seed, n)
  {
    forall v | v in Within(arcs, seed, n) ensures v in {seed} + ReachWithin(arcs, seed, n) {
      WithinIsReached(arcs, seed, n, v);
    }
    ReachedIsWithin(arcs, seed, n);
  }

  lemma {:induction false} WithinIsReached(arcs: set<Arc>, seed: string, n: nat, v: string)
    requires v in Within(arcs, seed, n)
    ensures v == seed || v in ReachWithin(arcs, seed, n)
    decreases n
  {
    if n > 0 {
      if v in Within(arcs, seed, n - 1) {
        WithinIsReached(arcs, seed, n - 1, v);
      } else {
        var a :| a in arcs && a.from in Within(arcs, seed, n - 1) && a.to == v;
        WithinIsReached(arcs, seed, n - 1, a.from);
        if v != seed {
          Extends(arcs, seed, n - 1, a);
        }
      }
    }
  }

  lemma {:induction false} ReachedIsWithin(arcs: set<Arc>, seed: string, n: nat)
    ensures ReachIn(arcs, seed, n) <= Within(arcs, seed, n) && ReachWithin(arcs, seed, n) <= Within(arcs, seed, n)
    ensures seed in Within(arcs, seed, n)
  {
    if n > 0 {
      ReachedIsWithin(arcs, seed, n - 1);
      forall v | v in ReachIn(arcs, seed, n) ensures v in Within(arcs, seed, n) {
        var a :| a in arcs && a.from in ReachIn(arcs, seed, n - 1) && a.to == v;
        assert a.from in Within(arcs, seed, n - 1);
      }
    }
  }

  /** An arc out of a node reached within n hops leads to one reached within n + 1. */
  lemma {:induction false} Extends(arcs: set<Arc>, seed: string, n: nat, a: Arc)
    requires a in arcs && a.from in {seed} + ReachWithin(arcs, seed, n) && a.to != seed
    ensures a.to in ReachWithin(arcs, seed, n + 1)
    decreases n
  {
    if n > 0 && !(a.from in ReachIn(arcs, seed, n)) {
      Extends(arcs, seed, n - 1, a);
    } else if n == 0 {
      assert a.from in ReachIn(arcs, seed, 0);
    }
  }

  lemma {:induction false} WalkEndsInReach(arcs: set<Arc>, seed: string, w: seq<Arc>, v: string)
    requires IsWalk(arcs, seed, w, v)
    ensures v in ReachIn(arcs, seed, |w|)
    decreases |w|
  {
    if |w| > 1 {
      WalkEndsInReach(arcs, seed, w[..|w| - 1], w[|w| - 1].from);
    } else {
      assert ReachIn(arcs, seed, 0) == {seed};
    }
  }

  // ----- What the fold finds -----

  /** Each recorded weight is the product along a real walk that ends with an arc of the recorded type. */
  ghost predicate Witnessed(best: Best, arcs: set<Arc>, seed: string) {
    forall v :: v in best ==> WitnessedAt(best[v], arcs, seed, v)
  }

  ghost predicate WitnessedAt(found: (string, real), arcs: set<Arc>, seed: string, v: string) {
    exists w: seq<Arc> :: IsWalk(arcs, seed, w, v) && found == (w[|w| - 1].kind, Product(w))
  }

  /** Each recorded weight is at least that of every walk of up to n arcs, and every such walk's end is recorded. */
  ghost predicate Dominates(best: Best, arcs: set<Arc>, seed: string, n: nat) {
    forall w: seq<Arc>, v :: IsWalk(arcs, seed, w, v) && |w| <= n ==> v in best && best[v].1 >= Product(w)
  }

  ghost predicate NonNegative(arcs: set<Arc>) {
    forall a :: a in arcs ==> a.weight >= 0.0
  }

  /** Whether a row leads from the frontier to a node worth recording. */
  predicate Usable(a: Arc, frontier: set<string>, seed: string, scope: Scope) {
    a.from in frontier && scope.Follows(a) && a.to != seed
  }

  function HeadOf(a: Arc, frontier: set<string>, seed: string, scope: Scope): set<string> {
    if Usable(a, frontier, seed, scope) then {a.to} else {}
  }

  /** Where a hop may read parent weights: the seed itself on the first, recorded nodes on every other. */
  predicate HasParents(best: Best, frontier: set<string>, seed: string, first: bool) {
    if first then frontier == {seed} else frontier <= best.Keys
  }

  ghost predicate Improves(before: Best, after: Best) {
    before.Keys <= after.Keys && forall v :: v in before ==> after[v].1 >= before[v].1
  }

  function Parent(best: Best, a: Arc, first: bool): real
    requires first || a.from in best
  {
    if first then 1.0 else best[a.from].1
  }

  /** The weight a usable row offers is that of a real walk. */
  lemma OfferWitnessed(best: Best, a: Arc, seed: string, first: bool, arcs: set<Arc>)
    requires Witnessed(best, arcs, seed)
    requires a in arcs && a.to != seed && (if first then a.from == seed else a.from in best)
    ensures WitnessedAt((a.kind, Times(a.weight, Parent(best, a, first))), arcs, seed, a.to)
  {
    var w: seq<Arc> := [];
    if !first {
      assert WitnessedAt(best[a.from], arcs, seed, a.from);
      w :| IsWalk(arcs, seed, w, a.from) && best[a.from] == (w[|w| - 1].kind, Product(w));
    }
    var longer := w + [a];
    assert longer[..|longer| - 1] == w && longer[|longer| - 1] == a;
    assert IsWalk(arcs, seed, longer, a.to);
    assert Product(longer) == Times(a.weight, Parent(best, a, first));
  }

  lemma RelaxRowWitnessed(
      best: Best, a: Arc, frontier: set<string>, seed: string, first: bool, scope: Scope, arcs: set<Arc>)
    requires Witnessed(best, arcs, seed) && HasParents(best, frontier, seed, first)
    requires scope.Follows(a) ==> a in arcs
    ensures Witnessed(RelaxRow(best, a, frontier, seed, first, scope), arcs, seed)
  {
    if Usable(a, frontier, seed, scope) {
      OfferWitnessed(best, a, seed, first, arcs);
      var after := RelaxRow(best, a, frontier, seed, first, scope);
      forall v | v in after ensures WitnessedAt(after[v], arcs, seed, v) {
        assert v in best ==> WitnessedAt(best[v], arcs, seed, v);
      }
    }
  }

  lemma RelaxRowImproves(best: Best, a: Arc, frontier: set<string>, seed: string, first: bool, scope: Scope)
    ensures
      var after := RelaxRow(best, a, frontier, seed, first, scope);
      Improves(best, after) && after.Keys == best.Keys + HeadOf(a, frontier, seed, scope)
  {
  }

  lemma NextAppend(rows: seq<Arc>, a: Arc, frontier: set<string>, seed: string, scope: Scope)
    ensures Next(rows + [a], frontier, seed, scope)
      == Next(rows, frontier, seed, scope) + HeadOf(a, frontier, seed, scope)
  {
  }

  lemma {:induction false} RelaxAllImproves(
      best: Best, rows: seq<Arc>, frontier: set<string>, seed: string, first: bool, scope: Scope)
    ensures
      var after := RelaxAll(best, rows, frontier, seed, first, scope);
      Improves(best, after) && after.Keys == best.Keys + Next(rows, frontier, seed, scope)
  {
    if rows != [] {
      var n := |rows| - 1;
      assert rows == rows[..n] + [rows[n]];
      RelaxAllImproves(best, rows[..n], frontier, seed, first, scope);
      RelaxRowImproves(RelaxAll(best, rows[..n], frontier, seed, first, scope), rows[n], frontier, seed, first, scope);
      NextAppend(rows[..n], rows[n], frontier, seed, scope);
    }
  }

  lemma {:induction false} RelaxAllWitnessed(
      best: Best, rows: seq<Arc>, frontier: set<string>, seed: string, first: bool, scope: Scope, arcs: set<Arc>)
    requires Witnessed(best, arcs, seed) && HasParents(best, frontier, seed, first)
    requires forall i :: 0 <= i < |rows| && scope.Follows(rows[i]) ==> rows[i] in arcs
    ensures Witnessed(RelaxAll(best, rows, frontier, seed, first, scope), arcs, seed)
  {
    if rows != [] {
      var n := |rows| - 1;
      RelaxAllWitnessed(best, rows[..n], frontier, seed, first, scope, arcs);
      RelaxAllImproves(best, rows[..n], frontier, seed, first, scope);
      RelaxRowWitnessed(
        RelaxAll(best, rows[..n], frontier, seed, first, scope), rows[n], frontier, seed, first, scope, arcs);
    }
  }

  lemma RowOffers(best: Best, a: Arc, frontier: set<string>, seed: string, first: bool, scope: Scope)
    requires HasParents(best, frontier, seed, first) && Usable(a, frontier, seed, scope)
    ensures
      var after := RelaxRow(best, a, frontier, seed, first, scope);
      a.to in after && after[a.to].1 >= Times(a.weight, Parent(best, a, first))
  {
  }

  lemma ParentImproves(before: Best, after: Best, a: Arc, first: bool)
    requires Improves(before, after) && a.weight >= 0.0 && (first || a.from in before)
    ensures Times(a.weight, Parent(before, a, first)) <= Times(a.weight, Parent(after, a, first))
  {
    TimesMonotone(a.weight, Parent(before, a, first), Parent(after, a, first));
  }

  /** Every row leaves its head with at least the weight it offered. */
  lemma {:induction false} RelaxAllOffers(
      best: Best, rows: seq<Arc>, frontier: set<string>, seed: string, first: bool, scope: Scope, i: nat)
    requires HasParents(best, frontier, seed, first)
    requires i < |rows| && Usable(rows[i], frontier, seed, scope) && rows[i].weight >= 0.0
    ensures
      var after := RelaxAll(best, rows, frontier, seed, first, scope);
      rows[i].to in after && after[rows[i].to].1 >= Times(rows[i].weight, Parent(best, rows[i], first))
  {
    var n := |rows| - 1;
    var before := RelaxAll(best, rows[..n], frontier, seed, first, scope);
    RelaxAllImproves(best, rows[..n], frontier, seed, first, scope);
    if i < n {
      assert rows[..n][i] == rows[i];
      RelaxAllOffers(best, rows[..n], frontier, seed, first, scope, i);
      RelaxRowImproves(before, rows[n], frontier, seed, first, scope);
    } else {
      RowOffers(before, rows[n], frontier, seed, first, scope);
      ParentImproves(best, before, rows[n], first);
    }
  }

  lemma TimesMonotone(w: real, x: real, y: real)
    requires w >= 0.0 && x <= y
    ensures Times(w, x) <= Times(w, y)
  {
  }

  // ----- The traversal -----

  /** Every hop reads the same table, in whatever order. */
  ghost predicate ReadsTable(orders: seq<seq<Arc>>, table: set<Arc>) {
    forall h, a :: 0 <= h < |orders| ==> (a in orders[h] <==> a in table)
  }

  /** After h hops: the frontier is what h arcs reach, the recorded nodes are what up to h arcs reach, and every
      recorded weight is that of a real walk. */
  lemma {:induction false} TraverseReaches(orders: seq<seq<Arc>>, table: set<Arc>, seed: string, h: nat, scope: Scope)
    requires h <= |orders| && ReadsTable(orders, table)
    ensures
      var (best, frontier) := Traverse(orders, seed, h, scope);
      var arcs := ArcsOf(table, scope);
      && frontier == ReachIn(arcs, seed, h) && best.Keys == ReachWithin(arcs, seed, h)
      && Witnessed(best, arcs, seed) && HasParents(best, frontier, seed, h == 0)
  {
    if h > 0 {
      var arcs := ArcsOf(table, scope);
      TraverseReaches(orders, table, seed, h - 1, scope);
      var (best, frontier) := Traverse(orders, seed, h - 1, scope);
      var rows := orders[h - 1];
      RelaxAllImproves(best, rows, frontier, seed, h == 1, scope);
      RelaxAllWitnessed(best, rows, frontier, seed, h == 1, scope, arcs);
      NextReaches(rows, table, seed, h - 1, scope);
    }
  }

  lemma NextReaches(rows: seq<Arc>, table: set<Arc>, seed: string, h: nat, scope: Scope)
    requires forall a :: a in rows <==> a in table
    ensures Next(rows, ReachIn(ArcsOf(table, scope), seed, h), seed, scope) == ReachIn(ArcsOf(table, scope), seed, h + 1)
  {
    var arcs, frontier := ArcsOf(table, scope), ReachIn(ArcsOf(table, scope), seed, h);
    forall v ensures v in Next(rows, frontier, seed, scope) <==> v in ReachIn(arcs, seed, h + 1) {
      if v in Next(rows, frontier, seed, scope) {
        var a :| a in rows && a.from in frontier && scope.Follows(a) && a.to != seed && a.to == v;
        assert a in arcs;
      }
      if v in ReachIn(arcs, seed, h + 1) {
        var a :| a in arcs && a.from in frontier && a.to != seed && a.to == v;
        assert a in rows;
      }
    }
  }

  lemma {:induction false} TraverseDominates(orders: seq<seq<Arc>>, table: set<Arc>, seed: string, h: nat, scope: Scope)
    requires h <= |orders| && ReadsTable(orders, table) && NonNegative(ArcsOf(table, scope))
    ensures Dominates(Traverse(orders, seed, h, scope).0, ArcsOf(table, scope), seed, h)
  {
    if h > 0 {
      var arcs := ArcsOf(table, scope);
      TraverseDominates(orders, table, seed, h - 1, scope);
      TraverseReaches(orders, table, seed, h - 1, scope);
      var (best, frontier) := Traverse(orders, seed, h - 1, scope);
      var rows := orders[h - 1];
      var after := RelaxAll(best, rows, frontier, seed, h == 1, scope);
      RelaxAllImproves(best, rows, frontier, seed, h == 1, scope);
      forall w: seq<Arc>, v | IsWalk(arcs, seed, w, v) && |w| <= h ensures v in after && after[v].1 >= Product(w) {
        if |w| == h {
          LastArcOffers(best, rows, table, frontier, seed, h, scope, w, v);
        }
      }
    }
  }

  /** A walk of exactly h arcs is beaten in hop h, by way of its last arc. */
  lemma LastArcOffers(
      best: Best, rows: seq<Arc>, table: set<Arc>, frontier: set<string>, seed: string, h: nat, scope: Scope,
      w: seq<Arc>, v: string)
    requires 0 < h && |w| == h && forall a :: a in rows <==> a in table
    requires NonNegative(ArcsOf(table, scope)) && IsWalk(ArcsOf(table, scope), seed, w, v)
    requires Dominates(best, ArcsOf(table, scope), seed, h - 1)
    requires frontier == ReachIn(ArcsOf(table, scope), seed, h - 1) && HasParents(best, frontier, seed, h == 1)
    ensures
      var after := RelaxAll(best, rows, frontier, seed, h == 1, scope);
      v in after && after[v].1 >= Product(w)
  {
    var a, init := w[h - 1], w[..h - 1];
    assert a in rows;
    var i :| 0 <= i < |rows| && rows[i] == a;
    if h > 1 {
      WalkEndsInReach(ArcsOf(table, scope), seed, init, a.from);
      TimesMonotone(a.weight, Product(init), best[a.from].1);
    } else {
      assert ReachIn(ArcsOf(table, scope), seed, 0) == {seed} && Product(init) == 1.0;
    }
    RelaxAllOffers(best, rows, frontier, seed, h == 1, scope, i);
  }

  /** What a traversal of a given depth promises about what it found. */
  ghost predicate Explores(best: Best, table: set<Arc>, scope: Scope, seed: string, depth: nat) {
    var arcs := ArcsOf(table, scope);
    && best.Keys == Within(arcs, seed, depth) - {seed}
    && Witnessed(best, arcs, seed)
    && (NonNegative(arcs) ==> Dominates(best, arcs, seed, depth))
  }

  /** The traversal finds exactly the nodes other than the seed within its depth, each with the weight of a real walk
      and, for non-negative weights, at least that of every walk of up to that many arcs. */
  lemma TraverseExplores(orders: seq<seq<Arc>>, table: set<Arc>, seed: string, scope: Scope)
    requires ReadsTable(orders, table)
    ensures Explores(Traverse(orders, seed, |orders|, scope).0, table, scope, seed, |orders|)
  {
    var arcs := ArcsOf(table, scope);
    TraverseReaches(orders, table, seed, |orders|, scope);
    AvoidingSeedReachesAll(arcs, seed, |orders|);
    SeedNotReached(arcs, seed, |orders|);
    if NonNegative(arcs) {
      TraverseDominates(orders, table, seed, |orders|, scope);
    }
  }

  lemma {:induction false} SeedNotReached(arcs: set<Arc>, seed: string, n: nat)
    ensures seed !in ReachWithin(arcs, seed, n)
  {
    if n > 0 {
      SeedNotReached(arcs, seed, n - 1);
    }
  }

  // ----- Walks that come back to the seed -----

  /** Any walk out of the seed, coming back to it or not. */
  ghost predicate IsAnyWalk(arcs: set<Arc>, seed: string, w: seq<Arc>, v: string)
    decreases |w|
  {
    if w == [] then v == seed
    else var a := w[|w| - 1]; a in arcs && a.to == v && IsAnyWalk(arcs, seed, w[..|w| - 1], a.from)
  }

  /** No way out of the seed and back to it, within n arcs, gains weight. */
  ghost predicate HarmlessLoops(arcs: set<Arc>, seed: string, n: int) {
    forall c :: IsAnyWalk(arcs, seed, c, seed) && |c| <= n ==> Product(c) <= 1.0
  }

  lemma {:induction false} ProductConcat(c: seq<Arc>, r: seq<Arc>)
    ensures Product(c + r) == Times(Product(r), Product(c))
  {
    if r == [] {
      assert c + r == c;
    } else {
      var n := |r| - 1;
      ProductConcat(c, r[..n]);
      assert (c + r)[..|c + r| - 1] == c + r[..n];
      TimesAssociates(r[n].weight, Product(r[..n]), Product(c));
    }
  }

  lemma TimesAssociates(a: real, b: real, c: real)
    ensures Times(a, Times(b, c)) == Times(Times(a, b), c)
  {
  }

  lemma {:induction false} WalkConcat(arcs: set<Arc>, seed: string, c: seq<Arc>, r: seq<Arc>, v: string)
    requires IsAnyWalk(arcs, seed, c, seed) && IsWalk(arcs, seed, r, v)
    ensures IsAnyWalk(arcs, seed, c + r, v)
    decreases |r|
  {
    var n := |r| - 1;
    assert (c + r)[..|c + r| - 1] == c + r[..n];
    if n == 0 {
      assert c + r[..n] == c;
    } else {
      WalkConcat(arcs, seed, c, r[..n], r[n].from);
    }
  }

  /** A walk is a way back to the seed followed by a walk that avoids it. */
  lemma {:induction false} LastVisit(arcs: set<Arc>, seed: string, w: seq<Arc>, v: string)
      returns (c: seq<Arc>, r: seq<Arc>)
    requires IsAnyWalk(arcs, seed, w, v) && v != seed
    ensures w == c + r && IsAnyWalk(arcs, seed, c, seed) && IsWalk(arcs, seed, r, v)
    decreases |w|
  {
    var n := |w| - 1;
    var a, init := w[n], w[..n];
    if a.from == seed {
      c, r := init, [a];
    } else {
      c, r := LastVisit(arcs, seed, init, a.from);
      r := r + [a];
      assert r[..|r| - 1] + [a] == r && w == init + [a];
    }
  }

  lemma {:induction false} ProductNonNegative(arcs: set<Arc>, seed: string, w: seq<Arc>, v: string)
    requires NonNegative(arcs) && IsAnyWalk(arcs, seed, w, v)
    ensures Product(w) >= 0.0
    decreases |w|
  {
    if w != [] {
      var n := |w| - 1;
      ProductNonNegative(arcs, seed, w[..n], w[n].from);
      TimesMonotone(w[n].weight, 0.0, Product(w[..n]));
    }
  }

  lemma WalkIsAnyWalk(arcs: set<Arc>, seed: string, w: seq<Arc>, v: string)
    requires IsWalk(arcs, seed, w, v)
    ensures IsAnyWalk(arcs, seed, w, v)
  {
    assert IsAnyWalk(arcs, seed, [], seed);
    WalkConcat(arcs, seed, [], w, v);
    assert [] + w == w;
  }

  /** Where no way back to the seed gains weight, the result also dominates the walks that come back to the seed. */
  lemma HarmlessLoopsDominateAllWalks(
      best: Best, table: set<Arc>, scope: Scope, seed: string, depth: nat, w: seq<Arc>, v: string)
    requires Explores(best, table, scope, seed, depth) && NonNegative(ArcsOf(table, scope))
    requires HarmlessLoops(ArcsOf(table, scope), seed, depth - 1)
    requires IsAnyWalk(ArcsOf(table, scope), seed, w, v) && v != seed && |w| <= depth
    ensures v in best && best[v].1 >= Product(w)
  {
    var arcs := ArcsOf(table, scope);
    var c, r := LastVisit(arcs, seed, w, v);
    ProductConcat(c, r);
    WalkIsAnyWalk(arcs, seed, r, v);
    ProductNonNegative(arcs, seed, r, v);
    TimesMonotone(Product(r), Product(c), 1.0);
  }

  /** A way back to the seed that gains weight outweighs whatever was found by a walk short enough to follow it. */
  lemma HeavierLoopOutweighs(
      best: Best, table: set<Arc>, scope: Scope, seed: string, depth: nat, c: seq<Arc>, r: seq<Arc>, v: string)
    requires Explores(best, table, scope, seed, depth)
    requires IsAnyWalk(ArcsOf(table, scope), seed, c, seed) && Product(c) > 1.0
    requires IsWalk(ArcsOf(table, scope), seed, r, v) && |c| + |r| <= depth
    requires v in best && best[v].1 == Product(r) > 0.0
    ensures IsAnyWalk(ArcsOf(table, scope), seed, c + r, v) && |c + r| <= depth && Product(c + r) > best[v].1
  {
    WalkConcat(ArcsOf(table, scope), seed, c, r, v);
    ProductConcat(c, r);
    TimesGrows(Product(r), Product(c));
  }

  lemma TimesGrows(a: real, b: real)
    requires a > 0.0 && b > 1.0
    ensures Times(a, b) > a
  {
    assert Times(a, b) - a == a * (b - 1.0);
  }

  /** The guard is needed: with any heavier way back within depth - 1 arcs, a neighbour of the seed that only the seed
      leads to is found too light. */
  lemma HeavierLoopBreaksNeighbour(
      best: Best, table: set<Arc>, scope: Scope, seed: string, depth: nat, c: seq<Arc>, a: Arc)
    requires Explores(best, table, scope, seed, depth)
    requires IsAnyWalk(ArcsOf(table, scope), seed, c, seed) && Product(c) > 1.0 && |c| <= depth - 1
    requires a in ArcsOf(table, scope) && a.from == seed && a.to != seed && a.weight > 0.0
    requires forall b :: b in ArcsOf(table, scope) && b.to == a.to ==> b == a
    ensures a.to in best && best[a.to].1 == a.weight
    ensures IsAnyWalk(ArcsOf(table, scope), seed, c + [a], a.to) && Product(c + [a]) > best[a.to].1
  {
    var arcs := ArcsOf(table, scope);
    assert [a][..0] == [] && Product([]) == 1.0;
    assert IsWalk(arcs, seed, [a], a.to) && Product([a]) == a.weight;
    assert a.to in Within(arcs, seed, 1);
    WithinGrows(arcs, seed, 1, depth);
    OnlyArcWeighs(best, arcs, seed, a);
    HeavierLoopOutweighs(best, table, scope, seed, depth, c, [a], a.to);
  }

  /** For such a neighbour the guard is exact. */
  lemma NeighbourDominatedExactlyWhen(
      best: Best, table: set<Arc>, scope: Scope, seed: string, depth: nat, a: Arc)
    requires Explores(best, table, scope, seed, depth) && NonNegative(ArcsOf(table, scope)) && depth > 0
    requires a in ArcsOf(table, scope) && a.from == seed && a.to != seed && a.weight > 0.0
    requires forall b :: b in ArcsOf(table, scope) && b.to == a.to ==> b == a
    ensures
      (forall w :: IsAnyWalk(ArcsOf(table, scope), seed, w, a.to) && |w| <= depth ==>
         a.to in best && best[a.to].1 >= Product(w))
      <==> HarmlessLoops(ArcsOf(table, scope), seed, depth - 1)
  {
    var arcs := ArcsOf(table, scope);
    if HarmlessLoops(arcs, seed, depth - 1) {
      forall w | IsAnyWalk(arcs, seed, w, a.to) && |w| <= depth ensures a.to in best && best[a.to].1 >= Product(w) {
        HarmlessLoopsDominateAllWalks(best, table, scope, seed, depth, w, a.to);
      }
    } else {
      var c :| IsAnyWalk(arcs, seed, c, seed) && |c| <= depth - 1 && Product(c) > 1.0;
      HeavierLoopBreaksNeighbour(best, table, scope, seed, depth, c, a);
    }
  }

  lemma OnlyArcWeighs(best: Best, arcs: set<Arc>, seed: string, a: Arc)
    requires Witnessed(best, arcs, seed) && a.to in best && a.from == seed
    requires forall b :: b in arcs && b.to == a.to ==> b == a
    ensures best[a.to].1 == a.weight
  {
    assert WitnessedAt(best[a.to], arcs, seed, a.to);
    var w: seq<Arc> :| IsWalk(arcs, seed, w, a.to) && best[a.to] == (w[|w| - 1].kind, Product(w));
    assert w[|w| - 1] == a;
    assert !IsWalk(arcs, seed, w[..|w| - 1], seed);
    assert |w| == 1 && w[..0] == [] && Product([]) == 1.0;
  }

  lemma {:induction false} WithinGrows(arcs: set<Arc>, seed: string, n: nat, m: nat)
    requires n <= m
    ensures Within(arcs, seed, n) <= Within(arcs, seed, m)
    decreases m
  {
    if n < m {
      WithinGrows(arcs, seed, n, m - 1);
    }
  }

  ghost predicate AtMostOne(arcs: set<Arc>) {
    forall a :: a in arcs ==> 0.0 <= a.weight <= 1.0
  }

  lemma {:induction false} ProductInUnit(arcs: set<Arc>, seed: string, w: seq<Arc>, v: string)
    requires AtMostOne(arcs) && IsAnyWalk(arcs, seed, w, v)
    ensures 0.0 <= Product(w) <= 1.0
    decreases |w|
  {
    if w != [] {
      var a := w[|w| - 1];
      var before := Product(w[..|w| - 1]);
      ProductInUnit(arcs, seed, w[..|w| - 1], a.from);
      TimesMonotone(a.weight, 0.0, before);
      TimesMonotone(a.weight, before, 1.0);
    }
  }

  /** In particular with weights between zero and one. */
  lemma BoundedWeightsDominateAllWalks(
      best: Best, table: set<Arc>, scope: Scope, seed: string, depth: nat, w: seq<Arc>, v: string)
    requires Explores(best, table, scope, seed, depth) && AtMostOne(ArcsOf(table, scope))
    requires IsAnyWalk(ArcsOf(table, scope), seed, w, v) && v != seed && |w| <= depth
    ensures v in best && best[v].1 >= Product(w)
  {
    var arcs := ArcsOf(table, scope);
    forall c | IsAnyWalk(arcs, seed, c, seed) && |c| <= depth - 1 ensures Product(c) <= 1.0 {
      ProductInUnit(arcs, seed, c, seed);
    }
    HarmlessLoopsDominateAllWalks(best, table, scope, seed, depth, w, v);
  }

  /** A graph in which a walk through the seed outweighs the result: arcs back to the seed are never followed. */
  lemma LoopThroughSeedOutweighs()
    ensures
      var out, back := Arc("s", "a", "link", 1.0), Arc("a", "s", "link", 2.0);
      var scope := Scope({"s", "a"}, {"s", "a"}, None);
      var best := Traverse([[out, back], [out, back], [out, back]], "s", 3, scope).0;
      && IsAnyWalk(ArcsOf({out, back}, scope), "s", [out, back, out], "a")
      && "a" in best && Product([out, back, out]) > best["a"].1
  {
    var out, back := Arc("s", "a", "link", 1.0), Arc("a", "s", "link", 2.0);
    var scope := Scope({"s", "a"}, {"s", "a"}, None);
    var rows := [out, back];
    var orders := [rows, rows, rows];
    assert "s"[0] != "a"[0];
    var found: Best := map["a" := ("link", 1.0)];
    assert rows[..1] == [out] && [out][..0] == [];
    assert RelaxAll(map[], [], {"s"}, "s", true, scope) == map[];
    assert RelaxAll(map[], [out], {"s"}, "s", true, scope) == found;
    assert RelaxAll(map[], rows, {"s"}, "s", true, scope) == found;
    assert out in rows && Next(rows, {"s"}, "s", scope) == {"a"};
    assert Traverse(orders, "s", 1, scope) == (found, {"a"});
    assert RelaxAll(found, [], {"a"}, "s", false, scope) == found;
    assert RelaxAll(found, [out], {"a"}, "s", false, scope) == found;
    assert RelaxAll(found, rows, {"a"}, "s", false, scope) == found;
    assert Next(rows, {"a"}, "s", scope) == {};
    assert Traverse(orders, "s", 2, scope) == (found, {});
    EmptyFrontierStays(orders, "s", 2, 3, scope);
    var loop := [out, back, out];
    assert loop[..2] == [out, back] && loop[..2][..1] == [out] && [out][..0] == [];
    assert Product([]) == 1.0 && Product([out]) == 1.0 && Product([out, back]) == 2.0 && Product(loop) == 2.0;
    var arcs := ArcsOf({out, back}, scope);
    assert IsAnyWalk(arcs, "s", [], "s") && IsAnyWalk(arcs, "s", [out], "a") && IsAnyWalk(arcs, "s", [out, back], "s");
  }

  // ----- Reading only the frontier's rows -----

  function Arcs(edges: seq<Edge>, incoming: bool): (r: seq<Arc>)
    ensures |r| == |edges| && forall i :: 0 <= i < |r| ==> r[i] == edges[i].Along(incoming)
  {
    seq(|edges|, i requires 0 <= i < |edges| => edges[i].Along(incoming))
  }

  function AllArcs(orders: seq<seq<Edge>>, incoming: bool): seq<seq<Arc>> {
    seq(|orders|, h requires 0 <= h < |orders| => Arcs(orders[h], incoming))
  }

  /** The rows a hop reads: edges that leave one of the given nodes towards an indexed record. */
  function Select(arcs: seq<Arc>, sources: set<string>, records: set<string>): (r: seq<Arc>)
    ensures forall i :: 0 <= i < |r| ==> r[i] in arcs && r[i].from in sources && r[i].to in records
  {
    if arcs == [] then []
    else
      var n := |arcs| - 1;
      var before := Select(arcs[..n], sources, records);
      if arcs[n].from in sources && arcs[n].to in records then before + [arcs[n]] else before
  }

  lemma RelaxLast(best: Best, rows: seq<Arc>, a: Arc, frontier: set<string>, seed: string, first: bool, scope: Scope)
    ensures RelaxAll(best, rows + [a], frontier, seed, first, scope)
      == RelaxRow(RelaxAll(best, rows, frontier, seed, first, scope), a, frontier, seed, first, scope)
  {
    assert (rows + [a])[..|rows|] == rows;
  }

  lemma {:induction false} SelectRelaxes(
      best: Best, arcs: seq<Arc>, sources: set<string>, frontier: set<string>, seed: string, first: bool, scope: Scope)
    requires frontier <= sources
    ensures RelaxAll(best, Select(arcs, sources, scope.records), frontier, seed, first, scope)
      == RelaxAll(best, arcs, frontier, seed, first, scope)
  {
    if arcs != [] {
      var n := |arcs| - 1;
      var before := Select(arcs[..n], sources, scope.records);
      SelectRelaxes(best, arcs[..n], sources, frontier, seed, first, scope);
      RelaxLast(best, arcs[..n], arcs[n], frontier, seed, first, scope);
      assert arcs == arcs[..n] + [arcs[n]];
      if arcs[n].from in sources && arcs[n].to in scope.records {
        RelaxLast(best, before, arcs[n], frontier, seed, first, scope);
      }
    }
  }

  lemma {:induction false} SelectMembers(arcs: seq<Arc>, sources: set<string>, records: set<string>, a: Arc)
    ensures a in Select(arcs, sources, records) <==> a in arcs && a.from in sources && a.to in records
  {
    if arcs != [] {
      var n := |arcs| - 1;
      assert arcs == arcs[..n] + [arcs[n]];
      SelectMembers(arcs[..n], sources, records, a);
    }
  }

  /** Reading the rows of the frontier, or of any larger set of nodes, finds the same as reading the whole table. */
  lemma SelectSuffices(
      best: Best, arcs: seq<Arc>, sources: set<string>, frontier: set<string>, seed: string, first: bool, scope: Scope)
    requires frontier <= sources
    ensures RelaxAll(best, Select(arcs, sources, scope.records), frontier, seed, first, scope)
      == RelaxAll(best, arcs, frontier, seed, first, scope)
    ensures Next(Select(arcs, sources, scope.records), frontier, seed, scope) == Next(arcs, frontier, seed, scope)
  {
    SelectRelaxes(best, arcs, sources, frontier, seed, first, scope);
    forall a ensures a in Select(arcs, sources, scope.records) <==> a in arcs && a.from in sources && a.to in scope.records {
      SelectMembers(arcs, sources, scope.records, a);
    }
  }

  /** Once a frontier is empty, further hops find nothing. */
  lemma {:induction false} EmptyFrontierStays(orders: seq<seq<Arc>>, seed: string, h: nat, later: nat, scope: Scope)
    requires h <= later <= |orders| && Traverse(orders, seed, h, scope).1 == {}
    ensures Traverse(orders, seed, later, scope) == Traverse(orders, seed, h, scope)
    decreases later
  {
    if h < later {
      EmptyFrontierStays(orders, seed, h, later - 1, scope);
      EmptyFrontierFindsNothing(Traverse(orders, seed, h, scope).0, orders[later - 1], seed, later == 1, scope);
    }
  }

  lemma {:induction false} EmptyFrontierFindsNothing(best: Best, rows: seq<Arc>, seed: string, first: bool, scope: Scope)
    ensures RelaxAll(best, rows, {}, seed, first, scope) == best && Next(rows, {}, seed, scope) == {}
  {
    if rows != [] {
      EmptyFrontierFindsNothing(best, rows[..|rows| - 1], seed, first, scope);
    }
  }

  // ----- The queries -----

  datatype Neighbor = Neighbor(key: string, kind: string, weight: real)

  function HitsOf(neighbors: seq<Neighbor>): (r: seq<Hit>)
    ensures |r| == |neighbors| && forall i :: 0 <= i < |r| ==> r[i] == Hit(neighbors[i].key, neighbors[i].weight)
  {
    seq(|neighbors|, i requires 0 <= i < |neighbors| => Hit(neighbors[i].key, neighbors[i].weight))
  }

  /** The nodes found, strongest first and by key among equals, cut off at the limit. */
  ghost predicate Ranks(r: seq<Neighbor>, best: Best, limit: Option<nat>) {
    && Ordered(HitsOf(r))
    && |r| == (if limit.Some? then Min(limit.value, |best|) else |best|)
    && (forall i :: 0 <= i < |r| ==> r[i].key in best && best[r[i].key] == (r[i].kind, r[i].weight))
    && (forall v, i :: v in best && 0 <= i < |r| && (forall j :: 0 <= j < |r| ==> r[j].key != v)
         ==> Better(HitsOf(r)[i], Hit(v, best[v].1)))
  }

  datatype QueryError = InvalidDepth | InvalidLimit | InvalidSeed

  method SortNeighbors(best: Best, limit: Option<nat>) returns (r: seq<Neighbor>)
    ensures Ranks(r, best, limit)
  {
    var hits: seq<Hit> := [];
    var rest := best.Keys;
    while rest != {}
      invariant rest <= best.Keys && DistinctHits(hits) && |hits| + |rest| == |best.Keys|
      invariant forall i :: 0 <= i < |hits| ==>
        hits[i].key in best && hits[i].key !in rest && hits[i].score == best[hits[i].key].1
      invariant forall v :: v in best && v !in rest ==> Hit(v, best[v].1) in hits
      decreases rest
    {
      var v :| v in rest;
      hits, rest := hits + [Hit(v, best[v].1)], rest - {v};
    }
    var k := if limit.Some? then limit.value else |hits|;
    var top := Top(hits, k);
    TopIsTop(hits, k);
    assert forall i | 0 <= i < |top| :: top[i] in top;
    r := seq(|top|, i requires 0 <= i < |top| && top[i].key in best =>
      Neighbor(top[i].key, best[top[i].key].0, top[i].score));
    assert HitsOf(r) == top;
  }

  /** One seed: hop by hop, stopping early when nothing new is left to follow. `orders[h]` is the order in which the
      database returns the edges at hop h. */
  method NeighborsDirection(
      orders: seq<seq<Edge>>, incoming: bool, scope: Scope, seed: string, depth: int, limit: Option<int>)
      returns (r: Result<seq<Neighbor>, QueryError>)
    requires |orders| == depth || depth < 1
    ensures depth < 1 ==> r == Err(InvalidDepth)
    ensures depth >= 1 && limit.Some? && limit.value <= 0 ==> r == Err(InvalidLimit)
    ensures depth >= 1 && !(limit.Some? && limit.value <= 0) && seed !in scope.canonical ==> r == Err(InvalidSeed)
    ensures r.Ok? <==> depth >= 1 && !(limit.Some? && limit.value <= 0) && seed in scope.canonical
    ensures r.Ok? ==>
      Ranks(r.value, Traverse(AllArcs(orders, incoming), seed, depth, scope).0,
            if limit.Some? then Some(limit.value) else None)
  {
    if depth < 1 {
      return Err(InvalidDepth);
    }
    if limit.Some? && limit.value <= 0 {
      return Err(InvalidLimit);
    }
    if seed !in scope.canonical {
      return Err(InvalidSeed);
    }
    var best := Follow(orders, incoming, scope, seed);
    var neighbors := SortNeighbors(best, if limit.Some? then Some(limit.value) else None);
    r := Ok(neighbors);
  }

  /** The hop loop. */
  method Follow(orders: seq<seq<Edge>>, incoming: bool, scope: Scope, seed: string) returns (best: Best)
    ensures best == Traverse(AllArcs(orders, incoming), seed, |orders|, scope).0
  {
    ghost var all := AllArcs(orders, incoming);
    var frontier := {seed};
    best := map[];
    var hop := 0;
    while hop < |orders| && frontier != {}
      invariant 0 <= hop <= |orders|
      invariant best == Traverse(all, seed, hop, scope).0 && frontier == Traverse(all, seed, hop, scope).1
    {
      TraverseStep(all, seed, hop, scope);
      best, frontier := ReadHop(best, Arcs(orders[hop], incoming), frontier, seed, hop == 0, scope);
      hop := hop + 1;
    }
    if hop < |orders| {
      EmptyFrontierStays(all, seed, hop, |orders|, scope);
    }
  }

  /** One hop: read the frontier's rows and follow them. */
  method ReadHop(best: Best, arcs: seq<Arc>, frontier: set<string>, seed: string, first: bool, scope: Scope)
      returns (found: Best, next: set<string>)
    ensures found == RelaxAll(best, arcs, frontier, seed, first, scope)
    ensures next == Next(arcs, frontier, seed, scope)
  {
    SelectSuffices(best, arcs, frontier, frontier, seed, first, scope);
    found, next := RelaxHop(best, Select(arcs, frontier, scope.records), frontier, seed, first, scope);
  }

  lemma TraverseStep(orders: seq<seq<Arc>>, seed: string, h: nat, scope: Scope)
    requires h < |orders|
    ensures
      var before, after := Traverse(orders, seed, h, scope), Traverse(orders, seed, h + 1, scope);
      && after.0 == RelaxAll(before.0, orders[h], before.1, seed, h == 0, scope)
      && after.1 == Next(orders[h], before.1, seed, scope)
  {
  }

  /** The row loop of one hop. */
  method RelaxHop(best: Best, rows: seq<Arc>, frontier: set<string>, seed: string, first: bool, scope: Scope)
      returns (found: Best, next: set<string>)
    requires forall i :: 0 <= i < |rows| ==> rows[i].from in frontier && rows[i].to in scope.records
    ensures found == RelaxAll(best, rows, frontier, seed, first, scope)
    ensures next == Next(rows, frontier, seed, scope)
  {
    found, next := best, {};
    var i := 0;
    while i < |rows|
      invariant 0 <= i <= |rows|
      invariant found == RelaxAll(best, rows[..i], frontier, seed, first, scope)
      invariant next == Next(rows[..i], frontier, seed, scope)
    {
      var row := rows[i];
      assert rows[..i + 1][..i] == rows[..i];
      assert rows[..i + 1] == rows[..i] + [row];
      NextAppend(rows[..i], row, frontier, seed, scope);
      i := i + 1;
      if scope.allowed.Some? && row.kind !in scope.allowed.value {
        continue;
      }
      if row.to !in scope.canonical || row.to == seed {
        continue;
      }
      found := Record(found, row, first);
      next := next + {row.to};
    }
    assert rows[..|rows|] == rows;
  }

  method Record(best: Best, row: Arc, first: bool) returns (found: Best)
    ensures found == Recorded(best, row, first)
  {
    var weight := row.weight;
    if !first {
      weight := Times(weight, if row.from in best then best[row.from].1 else 1.0);
    }
    found := best;
    if row.to !in found || weight > found[row.to].1 {
      found := found[row.to := (row.kind, weight)];
    }
  }

  // ----- Several seeds, one query per hop -----

  /** `list(dict.fromkeys(keys))`. */
  function FirstOccurrences(keys: seq<string>): (r: seq<string>)
    ensures Distinct(r) && Elements(r) == Elements(keys)
  {
    if keys == [] then []
    else
      var n := |keys| - 1;
      var before := FirstOccurrences(keys[..n]);
      assert keys == keys[..n] + [keys[n]];
      assert Elements(keys) == Elements(keys[..n]) + {keys[n]};
      assert keys[n] in before <==> keys[n] in Elements(before);
      if keys[n] in before then before
      else
        assert Elements(before + [keys[n]]) == Elements(before) + {keys[n]};
        before + [keys[n]]
  }

  /** For each node on some frontier, the seeds whose frontier it is on. */
  type Owners = map<string, seq<string>>

  predicate Owns(owners: Owners, node: string, seed: string) {
    node in owners && seed in owners[node]
  }

  ghost predicate Lists(owners: Owners, frontiers: map<string, set<string>>) {
    && (forall node, seed :: Owns(owners, node, seed) <==> seed in frontiers && node in frontiers[seed])
    && (forall node :: node in owners ==> Distinct(owners[node]) && owners[node] != [])
  }

  /** `owners.setdefault(node, []).append(seed)` for each node of one seed's frontier. */
  method AddOwner(owners: Owners, seed: string, frontier: set<string>) returns (added: Owners)
    requires forall node :: node in owners ==> Distinct(owners[node]) && owners[node] != [] && seed !in owners[node]
    ensures forall node :: node in added ==> Distinct(added[node]) && added[node] != []
    ensures forall node, s :: Owns(added, node, s) <==> Owns(owners, node, s) || (s == seed && node in frontier)
  {
    added := owners;
    var rest := frontier;
    while rest != {}
      invariant rest <= frontier
      invariant forall node :: node in added ==> Distinct(added[node]) && added[node] != []
      invariant forall node :: node in rest ==> !Owns(added, node, seed)
      invariant forall node, s ::
        Owns(added, node, s) <==> Owns(owners, node, s) || (s == seed && node in frontier && node !in rest)
      decreases rest
    {
      var node :| node in rest;
      var listed := if node in added then added[node] else [];
      assert seed !in listed;
      added, rest := added[node := listed + [seed]], rest - {node};
    }
  }

  method CollectOwners(seeds: seq<string>, frontiers: map<string, set<string>>) returns (owners: Owners)
    requires Distinct(seeds) && Elements(seeds) == frontiers.Keys
    ensures Lists(owners, frontiers)
  {
    owners := map[];
    var i := 0;
    while i < |seeds|
      invariant 0 <= i <= |seeds|
      invariant forall node :: node in owners ==> Distinct(owners[node]) && owners[node] != []
      invariant forall node, s :: Owns(owners, node, s) <==> s in seeds[..i] && s in frontiers && node in frontiers[s]
    {
      assert seeds[i] in Elements(seeds) && seeds[i] !in seeds[..i];
      forall node | node in owners ensures seeds[i] !in owners[node] {
        assert Owns(owners, node, seeds[i]) <==> seeds[i] in owners[node];
      }
      owners := AddOwner(owners, seeds[i], frontiers[seeds[i]]);
      assert seeds[..i + 1] == seeds[..i] + [seeds[i]];
      i := i + 1;
    }
    assert seeds[..i] == seeds;
    assert forall s :: s in frontiers <==> s in seeds by {
      assert forall s :: s in seeds <==> s in Elements(seeds);
    }
  }

  /** What one row does for every seed. */
  ghost predicate RowApplied(
      bests: map<string, Best>, nexts: map<string, set<string>>, found: map<string, Best>,
      reached: map<string, set<string>>, row: Arc, frontiers: map<string, set<string>>, first: bool, scope: Scope)
    requires bests.Keys == nexts.Keys == found.Keys == reached.Keys == frontiers.Keys
  {
    forall s :: s in bests ==>
      AppliedTo(bests[s], nexts[s], found[s], reached[s], row, frontiers[s], s, first, scope)
  }

  ghost predicate AppliedTo(
      best: Best, next: set<string>, found: Best, reached: set<string>, row: Arc, frontier: set<string>, seed: string,
      first: bool, scope: Scope)
  {
    found == RelaxRow(best, row, frontier, seed, first, scope) && reached == next + HeadOf(row, frontier, seed, scope)
  }

  /** The loop over a row's owners. */
  method ApplyRow(
      bests: map<string, Best>, nexts: map<string, set<string>>, row: Arc, frontiers: map<string, set<string>>,
      owners: Owners, first: bool, scope: Scope)
      returns (found: map<string, Best>, reached: map<string, set<string>>)
    requires bests.Keys == nexts.Keys == frontiers.Keys && Lists(owners, frontiers) && row.from in owners
    requires scope.allowed.None? && row.to in scope.records
    ensures found.Keys == reached.Keys == frontiers.Keys
    ensures RowApplied(bests, nexts, found, reached, row, frontiers, first, scope)
  {
    found, reached := bests, nexts;
    if row.to !in scope.canonical {
      return;
    }
    var listed := owners[row.from];
    var i := 0;
    while i < |listed|
      invariant 0 <= i <= |listed|
      invariant found.Keys == reached.Keys == frontiers.Keys
      invariant forall s :: s in bests ==>
        if s in listed[..i] then AppliedTo(bests[s], nexts[s], found[s], reached[s], row, frontiers[s], s, first, scope)
        else found[s] == bests[s] && reached[s] == nexts[s]
    {
      var seed := listed[i];
      assert Owns(owners, row.from, seed);
      assert seed !in listed[..i];
      assert listed[..i + 1] == listed[..i] + [seed];
      i := i + 1;
      if row.to == seed {
        continue;
      }
      var best := Record(found[seed], row, first);
      found, reached := found[seed := best], reached[seed := reached[seed] + {row.to}];
    }
    assert listed[..i] == listed;
    forall s | s in bests && s !in listed ensures row.from !in frontiers[s] {
      assert !Owns(owners, row.from, s);
    }
  }

  /** Every seed's best weights and next frontier after some rows are those of the seed on its own. */
  ghost predicate RowsApplied(
      bests: map<string, Best>, found: map<string, Best>, reached: map<string, set<string>>, rows: seq<Arc>,
      frontiers: map<string, set<string>>, first: bool, scope: Scope)
    requires bests.Keys == found.Keys == reached.Keys == frontiers.Keys
  {
    forall s :: s in bests ==>
      && found[s] == RelaxAll(bests[s], rows, frontiers[s], s, first, scope)
      && reached[s] == Next(rows, frontiers[s], s, scope)
  }

  lemma RowAppends(
      bests: map<string, Best>, found: map<string, Best>, reached: map<string, set<string>>, rows: seq<Arc>, row: Arc,
      after: map<string, Best>, nexts: map<string, set<string>>, frontiers: map<string, set<string>>, first: bool,
      scope: Scope)
    requires bests.Keys == found.Keys == reached.Keys == after.Keys == nexts.Keys == frontiers.Keys
    requires RowsApplied(bests, found, reached, rows, frontiers, first, scope)
    requires RowApplied(found, reached, after, nexts, row, frontiers, first, scope)
    ensures RowsApplied(bests, after, nexts, rows + [row], frontiers, first, scope)
  {
    assert (rows + [row])[..|rows|] == rows;
    forall s | s in bests
      ensures after[s] == RelaxAll(bests[s], rows + [row], frontiers[s], s, first, scope)
      ensures nexts[s] == Next(rows + [row], frontiers[s], s, scope)
    {
      NextAppend(rows, row, frontiers[s], s, scope);
    }
  }

  /** The row loop of one hop for every seed at once. */
  method RelaxHopMany(
      bests: map<string, Best>, rows: seq<Arc>, frontiers: map<string, set<string>>, owners: Owners, first: bool,
      scope: Scope)
      returns (found: map<string, Best>, reached: map<string, set<string>>)
    requires bests.Keys == frontiers.Keys && Lists(owners, frontiers) && scope.allowed.None?
    requires forall i :: 0 <= i < |rows| ==> rows[i].from in owners && rows[i].to in scope.records
    ensures found.Keys == reached.Keys == frontiers.Keys
    ensures RowsApplied(bests, found, reached, rows, frontiers, first, scope)
  {
    found, reached := bests, map s | s in frontiers :: {};
    var i := 0;
    while i < |rows|
      invariant 0 <= i <= |rows| && found.Keys == reached.Keys == frontiers.Keys
      invariant RowsApplied(bests, found, reached, rows[..i], frontiers, first, scope)
    {
      var after, nexts := ApplyRow(found, reached, rows[i], frontiers, owners, first, scope);
      RowAppends(bests, found, reached, rows[..i], rows[i], after, nexts, frontiers, first, scope);
      assert rows[..i] + [rows[i]] == rows[..i + 1];
      found, reached := after, nexts;
      i := i + 1;
    }
    assert rows[..i] == rows;
  }

  /** Every seed stands where its own traversal would after h hops. */
  ghost predicate AllAtHop(
      bests: map<string, Best>, frontiers: map<string, set<string>>, orders: seq<seq<Arc>>, h: nat, scope: Scope)
    requires bests.Keys == frontiers.Keys && h <= |orders|
  {
    forall s :: s in bests ==>
      bests[s] == Traverse(orders, s, h, scope).0 && frontiers[s] == Traverse(orders, s, h, scope).1
  }

  lemma HopAdvances(
      bests: map<string, Best>, frontiers: map<string, set<string>>, found: map<string, Best>,
      reached: map<string, set<string>>, orders: seq<seq<Arc>>, h: nat, sources: set<string>, scope: Scope)
    requires bests.Keys == frontiers.Keys == found.Keys == reached.Keys && h < |orders|
    requires AllAtHop(bests, frontiers, orders, h, scope)
    requires forall s :: s in frontiers ==> frontiers[s] <= sources
    requires RowsApplied(bests, found, reached, Select(orders[h], sources, scope.records), frontiers, h == 0, scope)
    ensures AllAtHop(found, reached, orders, h + 1, scope)
  {
    forall s | s in found
      ensures found[s] == Traverse(orders, s, h + 1, scope).0 && reached[s] == Traverse(orders, s, h + 1, scope).1
    {
      SelectSuffices(bests[s], orders[h], sources, frontiers[s], s, h == 0, scope);
      TraverseStep(orders, s, h, scope);
    }
  }

  lemma NoOwnersMeansDone(
      bests: map<string, Best>, frontiers: map<string, set<string>>, owners: Owners, orders: seq<seq<Arc>>, h: nat,
      scope: Scope)
    requires bests.Keys == frontiers.Keys && h <= |orders| && Lists(owners, frontiers) && owners == map[]
    requires AllAtHop(bests, frontiers, orders, h, scope)
    ensures forall s :: s in bests ==> bests[s] == Traverse(orders, s, |orders|, scope).0
  {
    forall s | s in bests ensures bests[s] == Traverse(orders, s, |orders|, scope).0 {
      assert forall node :: !Owns(owners, node, s);
      assert frontiers[s] == {};
      EmptyFrontierStays(orders, s, h, |orders|, scope);
    }
  }

  lemma AllStart(
      bests: map<string, Best>, frontiers: map<string, set<string>>, seeds: set<string>, orders: seq<seq<Arc>>,
      scope: Scope)
    requires bests.Keys == frontiers.Keys == seeds
    requires forall s :: s in seeds ==> bests[s] == map[] && frontiers[s] == {s}
    ensures AllAtHop(bests, frontiers, orders, 0, scope)
  {
  }

  /** The hop loop for every seed at once. */
  method FollowMany(orders: seq<seq<Edge>>, incoming: bool, scope: Scope, seeds: seq<string>)
      returns (bests: map<string, Best>)
    requires Distinct(seeds) && scope.allowed.None?
    ensures bests.Keys == Elements(seeds)
    ensures forall s :: s in bests ==> bests[s] == Traverse(AllArcs(orders, incoming), s, |orders|, scope).0
  {
    ghost var all := AllArcs(orders, incoming);
    bests := map s | s in Elements(seeds) :: map[];
    var frontiers: map<string, set<string>> := map s | s in Elements(seeds) :: {s};
    AllStart(bests, frontiers, Elements(seeds), all, scope);
    var hop := 0;
    while hop < |orders|
      invariant 0 <= hop <= |orders| && bests.Keys == frontiers.Keys == Elements(seeds)
      invariant AllAtHop(bests, frontiers, all, hop, scope)
    {
      var owners := CollectOwners(seeds, frontiers);
      if owners == map[] {
        NoOwnersMeansDone(bests, frontiers, owners, all, hop, scope);
        return;
      }
      var arcs := Arcs(orders[hop], incoming);
      assert arcs == all[hop];
      bests, frontiers := ReadHopMany(bests, frontiers, owners, arcs, all, hop, scope);
      hop := hop + 1;
    }
    assert hop == |orders|;
  }

  /** One hop: one query for the nodes on any frontier. */
  method ReadHopMany(
      bests: map<string, Best>, frontiers: map<string, set<string>>, owners: Owners, arcs: seq<Arc>,
      ghost orders: seq<seq<Arc>>, h: nat, scope: Scope)
      returns (found: map<string, Best>, reached: map<string, set<string>>)
    requires h < |orders| && arcs == orders[h] && bests.Keys == frontiers.Keys && scope.allowed.None?
    requires AllAtHop(bests, frontiers, orders, h, scope) && Lists(owners, frontiers)
    ensures found.Keys == reached.Keys == frontiers.Keys && AllAtHop(found, reached, orders, h + 1, scope)
  {
    OwnersCover(owners, frontiers);
    var rows := Select(arcs, owners.Keys, scope.records);
    found, reached := RelaxHopMany(bests, rows, frontiers, owners, h == 0, scope);
    HopAdvances(bests, frontiers, found, reached, orders, h, owners.Keys, scope);
  }

  lemma OwnersCover(owners: Owners, frontiers: map<string, set<string>>)
    requires Lists(owners, frontiers)
    ensures forall s :: s in frontiers ==> frontiers[s] <= owners.Keys
  {
    forall s, node | s in frontiers && node in frontiers[s] ensures node in owners {
      assert Owns(owners, node, s);
    }
  }

  /** Several seeds: each seed's answer is what its own traversal without a type filter would give. */
  method NeighborsManyDirection(
      orders: seq<seq<Edge>>, incoming: bool, records: set<string>, canonical: set<string>, identities: seq<string>,
      depth: int, limit: Option<int>)
      returns (r: Result<map<string, seq<Neighbor>>, QueryError>)
    requires |orders| == depth || depth < 1
    ensures depth < 1 ==> r == Err(InvalidDepth)
    ensures depth >= 1 && limit.Some? && limit.value <= 0 ==> r == Err(InvalidLimit)
    ensures r.Ok? <==> depth >= 1 && !(limit.Some? && limit.value <= 0)
    ensures r.Ok? ==> r.value.Keys == Elements(identities)
    ensures r.Ok? ==> forall s :: s in r.value ==>
      Ranks(r.value[s], Traverse(AllArcs(orders, incoming), s, depth, Scope(records, canonical, None)).0,
            if limit.Some? then Some(limit.value) else None)
  {
    if depth < 1 {
      return Err(InvalidDepth);
    }
    if limit.Some? && limit.value <= 0 {
      return Err(InvalidLimit);
    }
    var bests := FollowMany(orders, incoming, Scope(records, canonical, None), FirstOccurrences(identities));
    var sorted := SortAll(bests, if limit.Some? then Some(limit.value) else None);
    r := Ok(sorted);
  }

  method SortAll(bests: map<string, Best>, limit: Option<nat>) returns (sorted: map<string, seq<Neighbor>>)
    ensures sorted.Keys == bests.Keys && forall s :: s in bests ==> Ranks(sorted[s], bests[s], limit)
  {
    sorted := map[];
    var rest := bests.Keys;
    while rest != {}
      invariant rest <= bests.Keys && sorted.Keys == bests.Keys - rest
      invariant forall s :: s in sorted ==> Ranks(sorted[s], bests[s], limit)
      decreases rest
    {
      var s :| s in rest;
      var neighbors := SortNeighbors(bests[s], limit);
      sorted, rest := sorted[s := neighbors], rest - {s};
    }
  }
}
