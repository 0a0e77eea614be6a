/** Planning and executing embedding work (searchkernel/indexing/semantic.py): inputs with the same text are encoded
    once, cached vectors are reused, and every input is handed the vector of its own text. */
module SemanticPlan {
  import opened Base

  /** An embedding; `None` stands for a value that is not finite. */
  type Vector = seq<Option<real>>

  datatype Input = Input(sourceId: string, text: string, contentHash: string, coarse: bool, priority: int)

  datatype WorkUnit = WorkUnit(
    contentHash: string, text: string, sourceIds: seq<string>, coarse: bool, priority: int)

  datatype Plan = Plan(hits: seq<(string, Vector)>, misses: seq<WorkUnit>, groups: map<string, seq<Input>>)

  datatype Progress = Progress(completed: nat, total: nat, cacheHits: nat, cacheMisses: nat)

  /** One call of the materialiser. */
  datatype Delivery = Delivery(item: Input, vector: Vector)

  /** What the encoder may do with a list of texts. */
  datatype Reply = Raised | Returned(vectors: seq<Vector>)

  datatype ExecuteError = InvalidBatchSize | EncoderRaised | WrongCount | InvalidVector | MaterializerRaised

  /** `_valid_vector`; a dimension of zero accepts every length. */
  predicate ValidVector(v: Vector, dimension: nat) {
    v != [] && (forall i :: 0 <= i < |v| ==> v[i].Some?) && (dimension != 0 ==> |v| == dimension)
  }

  predicate Usable(cache: map<string, Vector>, key: string, dimension: nat) {
    key in cache && ValidVector(cache[key], dimension)
  }

  /** Digests of different texts differ. */
  ghost predicate Injective(digest: string -> string) {
    forall s, t :: digest(s) == digest(t) ==> s == t
  }

  /** `prepare`: hashes are recomputed, whatever the caller supplied. */
  function Prepare(inputs: seq<Input>, digest: string -> string): (r: seq<Input>)
    ensures |r| == |inputs|
    ensures forall i :: 0 <= i < |r| ==> r[i] == inputs[i].(contentHash := digest(inputs[i].text))
  {
    seq(|inputs|, i requires 0 <= i < |inputs| => inputs[i].(contentHash := digest(inputs[i].text)))
  }

  ghost predicate Prepared(items: seq<Input>, digest: string -> string) {
    forall i :: 0 <= i < |items| ==> items[i].contentHash == digest(items[i].text)
  }

  // ----- Sorting -----

  function InsertBy<T>(less: (T, T) -> bool, sorted: seq<T>, x: T): seq<T> {
    if sorted == [] || less(x, sorted[0]) then [x] + sorted else [sorted[0]] + InsertBy(less, sorted[1..], x)
  }

  /** A stable sort. */
  function SortBy<T>(less: (T, T) -> bool, s: seq<T>): seq<T> {
    if s == [] then [] else InsertBy(less, SortBy(less, s[..|s| - 1]), s[|s| - 1])
  }

  lemma {:induction false} InsertByKeeps<T>(less: (T, T) -> bool, sorted: seq<T>, x: T)
    ensures multiset(InsertBy(less, sorted, x)) == multiset(sorted) + multiset{x}
  {
    if sorted != [] && !less(x, sorted[0]) {
      InsertByKeeps(less, sorted[1..], x);
      assert sorted == [sorted[0]] + sorted[1..];
    }
  }

  lemma {:induction false} SortByKeeps<T>(less: (T, T) -> bool, s: seq<T>)
    ensures multiset(SortBy(less, s)) == multiset(s)
  {
    if s != [] {
      var n := |s| - 1;
      SortByKeeps(less, s[..n]);
      InsertByKeeps(less, SortBy(less, s[..n]), s[n]);
      assert s == s[..n] + [s[n]];
    }
  }

  /** Never after something smaller: what a comparison must be for the sort to order by it. */
  ghost predicate WeakOrder<T(!new)>(less: (T, T) -> bool) {
    && (forall a, b :: less(a, b) ==> !less(b, a))
    && (forall a, b, c :: !less(b, a) && !less(c, b) ==> !less(c, a))
  }

  ghost predicate InOrder<T>(less: (T, T) -> bool, s: seq<T>) {
    forall i, j :: 0 <= i < j < |s| ==> !less(s[j], s[i])
  }

  lemma {:induction false} InsertByOrders<T(!new)>(less: (T, T) -> bool, sorted: seq<T>, x: T)
    requires WeakOrder(less) && InOrder(less, sorted)
    ensures InOrder(less, InsertBy(less, sorted, x))
  {
    if sorted != [] && !less(x, sorted[0]) {
      var rest := InsertBy(less, sorted[1..], x);
      InsertByOrders(less, sorted[1..], x);
      InsertByKeeps(less, sorted[1..], x);
      forall j | 0 <= j < |rest| ensures !less(rest[j], sorted[0]) {
        assert rest[j] in multiset(rest);
        if rest[j] != x {
          var i :| 0 <= i < |sorted[1..]| && sorted[1..][i] == rest[j];
          assert sorted[i + 1] == rest[j];
        }
      }
    } else if sorted != [] {
      forall j | 0 <= j < |sorted| ensures !less(sorted[j], x) {
        assert j > 0 ==> !less(sorted[j], sorted[0]);
      }
    }
  }

  lemma {:induction false} SortByOrders<T(!new)>(less: (T, T) -> bool, s: seq<T>)
    requires WeakOrder(less)
    ensures InOrder(less, SortBy(less, s))
  {
    if s != [] {
      SortByOrders(less, s[..|s| - 1]);
      InsertByOrders(less, SortBy(less, s[..|s| - 1]), s[|s| - 1]);
    }
  }

  lemma SameMembers<T(!new)>(s: seq<T>, t: seq<T>)
    requires multiset(s) == multiset(t)
    ensures |s| == |t| && Elements(s) == Elements(t) && (Distinct(s) ==> Distinct(t))
    ensures forall i :: 0 <= i < |t| ==> t[i] in s
  {
    assert |multiset(s)| == |s| && |multiset(t)| == |t|;
    assert forall x :: x in s <==> x in multiset(s);
    assert forall x :: x in t <==> x in multiset(t);
    assert Elements(s) == Elements(t);
    UniqueIsDistinct(s);
    UniqueIsDistinct(t);
  }

  // ----- Grouping -----

  /** The items of one hash, in input order. */
  function Having(items: seq<Input>, key: string): (r: seq<Input>)
    ensures forall i :: 0 <= i < |r| ==> r[i] in items && r[i].contentHash == key
  {
    if items == [] then []
    else
      var n := |items| - 1;
      var before := Having(items[..n], key);
      assert items == items[..n] + [items[n]];
      if items[n].contentHash == key then before + [items[n]] else before
  }

  /** The items of several hashes. */
  function Among(items: seq<Input>, keys: set<string>): seq<Input> {
    if items == [] then []
    else
      var n := |items| - 1;
      if items[n].contentHash in keys then Among(items[..n], keys) + [items[n]] else Among(items[..n], keys)
  }

  function KeysOf(items: seq<Input>): set<string> {
    set i | 0 <= i < |items| :: items[i].contentHash
  }

  lemma {:induction false} AmongGrows(items: seq<Input>, keys: set<string>, key: string)
    requires key !in keys
    ensures multiset(Among(items, keys + {key})) == multiset(Among(items, keys)) + multiset(Having(items, key))
  {
    if items != [] {
      AmongGrows(items[..|items| - 1], keys, key);
    }
  }

  lemma {:induction false} AmongAll(items: seq<Input>, keys: set<string>)
    requires KeysOf(items) <= keys
    ensures Among(items, keys) == items
  {
    if items != [] {
      var n := |items| - 1;
      assert items == items[..n] + [items[n]];
      assert items[n].contentHash in KeysOf(items);
      assert forall i | 0 <= i < n :: items[..n][i] == items[i] && items[i].contentHash in KeysOf(items);
      AmongAll(items[..n], keys);
    }
  }

  lemma {:induction false} AmongBelow(items: seq<Input>, keys: set<string>)
    ensures multiset(Among(items, keys)) <= multiset(items)
  {
    if items != [] {
      var n := |items| - 1;
      assert items == items[..n] + [items[n]];
      AmongBelow(items[..n], keys);
    }
  }

  function BySource(a: Input, b: Input): bool { KeyLess(a.sourceId, b.sourceId) }

  function ByWork(a: WorkUnit, b: WorkUnit): bool {
    a.priority < b.priority
    || (a.priority == b.priority
        && ((a.coarse && !b.coarse) || (a.coarse == b.coarse && KeyLess(a.contentHash, b.contentHash))))
  }

  lemma ByWorkIsOrder()
    ensures WeakOrder(ByWork)
  {
    forall a, b | ByWork(a, b) ensures !ByWork(b, a) {
      if KeyLess(a.contentHash, b.contentHash) {
        KeyLessAsymmetric(a.contentHash, b.contentHash);
      }
    }
    forall a, b, c | !ByWork(b, a) && !ByWork(c, b) ensures !ByWork(c, a) {
      if a.priority == b.priority == c.priority && a.coarse == b.coarse == c.coarse {
        NotLessTransitive(a.contentHash, b.contentHash, c.contentHash);
      }
    }
  }

  lemma NotLessTransitive(a: string, b: string, c: string)
    requires !KeyLess(b, a) && !KeyLess(c, b)
    ensures !KeyLess(c, a)
  {
    KeyLessTotal(a, b);
    KeyLessTotal(b, c);
    if KeyLess(a, b) && KeyLess(b, c) {
      KeyLessTransitive(a, b, c);
    }
    if KeyLess(c, a) {
      KeyLessAsymmetric(c, a);
    }
  }

  /** `group`: one entry per hash, holding exactly the items of that hash. */
  ghost predicate Grouped(groups: map<string, seq<Input>>, items: seq<Input>) {
    groups.Keys == KeysOf(items)
    && forall key :: key in groups ==> multiset(groups[key]) == multiset(Having(items, key)) && groups[key] != []
  }

  /** Within a group the items come by source id. */
  ghost predicate GroupsInOrder(groups: map<string, seq<Input>>) {
    forall key :: key in groups ==> InOrder(BySource, groups[key])
  }

  lemma BySourceIsOrder()
    ensures WeakOrder(BySource)
  {
    forall a, b | BySource(a, b) ensures !BySource(b, a) {
      KeyLessAsymmetric(a.sourceId, b.sourceId);
    }
    forall a, b, c | !BySource(b, a) && !BySource(c, b) ensures !BySource(c, a) {
      NotLessTransitive(a.sourceId, b.sourceId, c.sourceId);
    }
  }

  lemma {:induction false} HavingMember(items: seq<Input>, i: nat)
    requires i < |items|
    ensures items[i] in Having(items, items[i].contentHash)
  {
    var n := |items| - 1;
    if i < n {
      HavingMember(items[..n], i);
    }
  }

  method Group(items: seq<Input>) returns (groups: map<string, seq<Input>>)
    ensures Grouped(groups, items) && GroupsInOrder(groups)
  {
    var grouped: map<string, seq<Input>> := map[];
    var i := 0;
    while i < |items|
      invariant 0 <= i <= |items|
      invariant grouped.Keys == KeysOf(items[..i])
      invariant forall key :: key in grouped ==> grouped[key] == Having(items[..i], key)
      invariant forall key :: key !in grouped ==> Having(items[..i], key) == []
    {
      var item := items[i];
      var before := items[..i];
      assert items[..i + 1] == before + [item];
      assert items[..i + 1][..i] == before;
      KeysAppend(before, item);
      var listed := if item.contentHash in grouped then grouped[item.contentHash] else [];
      grouped := grouped[item.contentHash := listed + [item]];
      i := i + 1;
    }
    assert items[..i] == items;
    groups := map key | key in grouped :: SortBy(BySource, grouped[key]);
    BySourceIsOrder();
    forall key | key in groups ensures InOrder(BySource, groups[key]) {
      SortByOrders(BySource, grouped[key]);
    }
    forall key | key in groups ensures multiset(groups[key]) == multiset(Having(items, key)) && groups[key] != [] {
      SortByKeeps(BySource, grouped[key]);
      var j :| 0 <= j < |items| && items[j].contentHash == key;
      HavingMember(items, j);
      assert items[j] in multiset(groups[key]);
    }
  }

  lemma KeysAppend(items: seq<Input>, item: Input)
    ensures KeysOf(items + [item]) == KeysOf(items) + {item.contentHash}
  {
    var longer := items + [item];
    assert longer[|items|] == item;
    assert forall i | 0 <= i < |items| :: longer[i] == items[i];
    forall key | key in KeysOf(items) + {item.contentHash} ensures key in KeysOf(longer) {
      if key in KeysOf(items) {
        var i :| 0 <= i < |items| && items[i].contentHash == key;
        assert longer[i].contentHash == key;
      }
    }
  }

  // ----- Planning -----

  function HitKeys(hits: seq<(string, Vector)>): set<string> {
    set i | 0 <= i < |hits| :: hits[i].0
  }

  function MissKeys(misses: seq<WorkUnit>): set<string> {
    set i | 0 <= i < |misses| :: misses[i].contentHash
  }

  ghost predicate DistinctHits(hits: seq<(string, Vector)>) {
    forall i, j :: 0 <= i < j < |hits| ==> hits[i].0 != hits[j].0
  }

  ghost predicate DistinctWork(misses: seq<WorkUnit>) {
    forall i, j :: 0 <= i < j < |misses| ==> misses[i].contentHash != misses[j].contentHash
  }

  ghost predicate HitsUsable(hits: seq<(string, Vector)>, cache: map<string, Vector>, dimension: nat) {
    forall i :: 0 <= i < |hits| ==> Usable(cache, hits[i].0, dimension) && hits[i].1 == cache[hits[i].0]
  }

  ghost predicate MissNeeded(unit: WorkUnit, cache: map<string, Vector>, dimension: nat, digest: string -> string) {
    !Usable(cache, unit.contentHash, dimension) && digest(unit.text) == unit.contentHash
  }

  ghost predicate MissesNeeded(
      misses: seq<WorkUnit>, cache: map<string, Vector>, dimension: nat, digest: string -> string)
  {
    forall i :: 0 <= i < |misses| ==> MissNeeded(misses[i], cache, dimension, digest)
  }

  /** Hits are exactly the groups with a usable cached vector and carry that vector; misses are all other groups, with
      the text that hashes to the group's key, in the order they are to be worked on. */
  ghost predicate Plans(
      plan: Plan, items: seq<Input>, cache: map<string, Vector>, dimension: nat, digest: string -> string)
  {
    && Grouped(plan.groups, items)
    && DistinctHits(plan.hits) && DistinctWork(plan.misses)
    && HitsUsable(plan.hits, cache, dimension) && MissesNeeded(plan.misses, cache, dimension, digest)
    && HitKeys(plan.hits) + MissKeys(plan.misses) == plan.groups.Keys
    && Describe(plan.misses, plan.groups) && InOrder(ByWork, plan.misses) && GroupsInOrder(plan.groups)
  }

  /** The first of the items by priority, then source id. */
  function Foremost(items: seq<Input>): (r: Input)
    requires items != []
    ensures r in items
  {
    if |items| == 1 then items[0]
    else
      var rest := Foremost(items[1..]);
      assert rest in items[1..];
      if rest.priority < items[0].priority
        || (rest.priority == items[0].priority && KeyLess(rest.sourceId, items[0].sourceId))
      then rest else items[0]
  }

  function LeastPriority(items: seq<Input>): int
    requires items != []
  {
    if |items| == 1 then items[0].priority
    else
      var rest := LeastPriority(items[1..]);
      if rest < items[0].priority then rest else items[0].priority
  }

  function UnitFor(key: string, items: seq<Input>): WorkUnit
    requires items != []
  {
    WorkUnit(
      key, Foremost(items).text,
      SortBy(KeyLess, seq(|items|, i requires 0 <= i < |items| => items[i].sourceId)),
      exists i :: 0 <= i < |items| && items[i].coarse,
      LeastPriority(items))
  }

  method ListKeys(keys: set<string>) returns (listed: seq<string>)
    ensures Distinct(listed) && Elements(listed) == keys
  {
    var rest := keys;
    var s: seq<string> := [];
    while rest != {}
      invariant rest <= keys && Distinct(s) && Elements(s) == keys - rest
      decreases rest
    {
      var key :| key in rest;
      assert key !in Elements(s);
      assert Elements(s + [key]) == Elements(s) + {key};
      s, rest := s + [key], rest - {key};
    }
    listed := SortBy(KeyLess, s);
    SortByKeeps(KeyLess, s);
    SameMembers(s, listed);
  }

  /** Each unit of work stands for its whole group. */
  ghost predicate Describe(misses: seq<WorkUnit>, groups: map<string, seq<Input>>) {
    forall i :: 0 <= i < |misses| ==>
      && misses[i].contentHash in groups && groups[misses[i].contentHash] != []
      && misses[i] == UnitFor(misses[i].contentHash, groups[misses[i].contentHash])
  }

  /** What `plan` has decided for the first n hashes. */
  ghost predicate Split(
      hits: seq<(string, Vector)>, misses: seq<WorkUnit>, hashes: seq<string>, n: nat, cache: map<string, Vector>,
      dimension: nat, digest: string -> string)
    requires n <= |hashes|
  {
    && HitKeys(hits) + MissKeys(misses) == Elements(hashes[..n])
    && DistinctHits(hits) && DistinctWork(misses)
    && HitsUsable(hits, cache, dimension) && MissesNeeded(misses, cache, dimension, digest)
  }

  lemma SplitHit(
      hits: seq<(string, Vector)>, misses: seq<WorkUnit>, hashes: seq<string>, n: nat, cache: map<string, Vector>,
      dimension: nat, digest: string -> string)
    requires n < |hashes| && Distinct(hashes) && Split(hits, misses, hashes, n, cache, dimension, digest)
    requires Usable(cache, hashes[n], dimension)
    ensures Split(hits + [(hashes[n], cache[hashes[n]])], misses, hashes, n + 1, cache, dimension, digest)
  {
    var key := hashes[n];
    var longer := hits + [(key, cache[key])];
    assert hashes[..n + 1] == hashes[..n] + [key];
    assert key !in Elements(hashes[..n]);
    forall i | 0 <= i < |hits| ensures hits[i].0 != key {
      assert hits[i].0 in HitKeys(hits);
    }
    assert HitKeys(longer) == HitKeys(hits) + {key} by {
      assert longer[|hits|].0 == key;
      assert forall i | 0 <= i < |hits| :: longer[i].0 == hits[i].0;
    }
  }

  lemma SplitMiss(
      hits: seq<(string, Vector)>, misses: seq<WorkUnit>, hashes: seq<string>, n: nat, cache: map<string, Vector>,
      dimension: nat, digest: string -> string, unit: WorkUnit)
    requires n < |hashes| && Distinct(hashes) && Split(hits, misses, hashes, n, cache, dimension, digest)
    requires !Usable(cache, hashes[n], dimension) && unit.contentHash == hashes[n] == digest(unit.text)
    ensures Split(hits, misses + [unit], hashes, n + 1, cache, dimension, digest)
  {
    var key := hashes[n];
    var longer := misses + [unit];
    assert hashes[..n + 1] == hashes[..n] + [key];
    assert key !in Elements(hashes[..n]);
    forall i | 0 <= i < |misses| ensures misses[i].contentHash != key {
      assert misses[i].contentHash in MissKeys(misses);
    }
    assert MissKeys(longer) == MissKeys(misses) + {key} by {
      assert longer[|misses|].contentHash == key;
      assert forall i | 0 <= i < |misses| :: longer[i].contentHash == misses[i].contentHash;
    }
  }

  lemma SameWork(misses: seq<WorkUnit>, sorted: seq<WorkUnit>)
    requires multiset(misses) == multiset(sorted) && DistinctWork(misses)
    ensures DistinctWork(sorted) && MissKeys(sorted) <= MissKeys(misses)
  {
    assert Distinct(misses);
    SameMembers(misses, sorted);
    forall i, j | 0 <= i < j < |sorted| ensures sorted[i].contentHash != sorted[j].contentHash {
      assert sorted[i] in misses && sorted[j] in misses && sorted[i] != sorted[j];
    }
    forall key | key in MissKeys(sorted) ensures key in MissKeys(misses) {
      var i :| 0 <= i < |sorted| && sorted[i].contentHash == key;
      assert sorted[i] in misses;
    }
  }

  /** Sorting the misses changes only their order. */
  lemma SortKeepsWork(misses: seq<WorkUnit>)
    requires DistinctWork(misses)
    ensures
      var sorted := SortBy(ByWork, misses);
      && DistinctWork(sorted) && MissKeys(sorted) == MissKeys(misses)
      && forall i :: 0 <= i < |sorted| ==> sorted[i] in misses
  {
    var sorted := SortBy(ByWork, misses);
    SortByKeeps(ByWork, misses);
    SameMembers(misses, sorted);
    SameWork(misses, sorted);
    SameWork(sorted, misses);
  }

  lemma GroupText(groups: map<string, seq<Input>>, items: seq<Input>, key: string, digest: string -> string)
    requires Grouped(groups, items) && Prepared(items, digest) && key in groups
    ensures digest(Foremost(groups[key]).text) == key
  {
    var first := Foremost(groups[key]);
    assert first in multiset(groups[key]);
    var having := Having(items, key);
    assert first in multiset(having);
    var i :| 0 <= i < |having| && having[i] == first;
    var j :| 0 <= j < |items| && items[j] == first;
  }

  method MakePlan(inputs: seq<Input>, cache: map<string, Vector>, dimension: nat, digest: string -> string)
      returns (plan: Plan)
    ensures Plans(plan, Prepare(inputs, digest), cache, dimension, digest)
  {
    var items := Prepare(inputs, digest);
    var groups := Group(items);
    var hashes := ListKeys(groups.Keys);
    var hits: seq<(string, Vector)>, misses: seq<WorkUnit> := [], [];
    var n := 0;
    while n < |hashes|
      invariant 0 <= n <= |hashes|
      invariant Split(hits, misses, hashes, n, cache, dimension, digest) && Describe(misses, groups)
    {
      var key := hashes[n];
      assert key in Elements(hashes);
      if Usable(cache, key, dimension) {
        SplitHit(hits, misses, hashes, n, cache, dimension, digest);
        hits := hits + [(key, cache[key])];
      } else {
        GroupText(groups, items, key, digest);
        SplitMiss(hits, misses, hashes, n, cache, dimension, digest, UnitFor(key, groups[key]));
        DescribeMore(misses, groups, key);
        misses := misses + [UnitFor(key, groups[key])];
      }
      n := n + 1;
    }
    plan := Plan(hits, SortBy(ByWork, misses), groups);
    SortedPlan(hits, misses, groups, hashes, cache, dimension, digest);
  }

  lemma DescribeMore(misses: seq<WorkUnit>, groups: map<string, seq<Input>>, key: string)
    requires Describe(misses, groups) && key in groups && groups[key] != []
    ensures Describe(misses + [UnitFor(key, groups[key])], groups)
  {
  }

  lemma SortedPlan(
      hits: seq<(string, Vector)>, misses: seq<WorkUnit>, groups: map<string, seq<Input>>, hashes: seq<string>,
      cache: map<string, Vector>, dimension: nat, digest: string -> string)
    requires Split(hits, misses, hashes, |hashes|, cache, dimension, digest) && Describe(misses, groups)
    ensures
      var sorted := SortBy(ByWork, misses);
      && DistinctWork(sorted) && MissesNeeded(sorted, cache, dimension, digest) && Describe(sorted, groups)
      && InOrder(ByWork, sorted) && HitKeys(hits) + MissKeys(sorted) == Elements(hashes)
  {
    var sorted := SortBy(ByWork, misses);
    assert hashes[..|hashes|] == hashes;
    SortKeepsWork(misses);
    ByWorkIsOrder();
    SortByOrders(ByWork, misses);
    forall i | 0 <= i < |sorted|
      ensures MissNeeded(sorted[i], cache, dimension, digest)
      ensures sorted[i].contentHash in groups && groups[sorted[i].contentHash] != []
        && sorted[i] == UnitFor(sorted[i].contentHash, groups[sorted[i].contentHash])
    {
      var a :| 0 <= a < |misses| && misses[a] == sorted[i];
    }
  }

  // ----- Executing -----

  function ItemsOf(done: seq<Delivery>): (r: seq<Input>)
    ensures |r| == |done|
  {
    seq(|done|, i requires 0 <= i < |done| => done[i].item)
  }

  function TextsOf(work: seq<WorkUnit>): (r: seq<string>)
    ensures |r| == |work| && forall i :: 0 <= i < |r| ==> r[i] == work[i].text
  {
    seq(|work|, i requires 0 <= i < |work| => work[i].text)
  }

  function Deliveries(items: seq<Input>, vector: Vector): (r: seq<Delivery>)
    ensures |r| == |items| && ItemsOf(r) == items && forall i :: 0 <= i < |r| ==> r[i].vector == vector
  {
    seq(|items|, i requires 0 <= i < |items| => Delivery(items[i], vector))
  }

  lemma ItemsAppend(a: seq<Delivery>, b: seq<Delivery>)
    ensures ItemsOf(a + b) == ItemsOf(a) + ItemsOf(b)
  {
  }

  /** The encoder answered this text with this vector, in one of its calls. */
  ghost predicate Answered(encode: (nat, seq<string>) -> Reply, text: string, v: Vector) {
    exists n: nat, texts: seq<string>, i: nat :: i < |texts| && texts[i] == text && AnswersAt(encode, n, texts, i, v)
  }

  ghost predicate AnswersAt(encode: (nat, seq<string>) -> Reply, n: nat, texts: seq<string>, i: nat, v: Vector)
    requires i < |texts|
  {
    var reply := encode(n, texts);
    reply.Returned? && |reply.vectors| == |texts| && reply.vectors[i] == v
  }

  /** Exactly the items of the given hashes have been delivered, each with the vector stored for its hash. */
  ghost predicate Delivered(done: seq<Delivery>, items: seq<Input>, keys: set<string>, vectors: map<string, Vector>) {
    && multiset(ItemsOf(done)) == multiset(Among(items, keys))
    && CarriesOwn(done, vectors)
  }

  ghost predicate CarriesOwn(done: seq<Delivery>, vectors: map<string, Vector>) {
    forall i :: 0 <= i < |done| ==>
      done[i].item.contentHash in vectors && done[i].vector == vectors[done[i].item.contentHash]
  }

  /** The encoder, with a record of what it has been asked. */
  class Encoder {
    const reply: (nat, seq<string>) -> Reply
    var calls: seq<seq<string>>

    constructor (reply: (nat, seq<string>) -> Reply)
      ensures this.reply == reply && calls == []
    {
      this.reply, calls := reply, [];
    }

    method Encode(texts: seq<string>) returns (r: Reply)
      modifies this
      ensures calls == old(calls) + [texts] && r == reply(|old(calls)|, texts)
    {
      r := reply(|calls|, texts);
      calls := calls + [texts];
    }
  }

  /** The materialiser, with a record of what it has taken. */
  class Materializer {
    const accepts: Delivery -> bool
    var delivered: seq<Delivery>

    constructor (accepts: Delivery -> bool)
      ensures this.accepts == accepts && delivered == []
    {
      this.accepts, delivered := accepts, [];
    }

    method Materialize(item: Input, vector: Vector) returns (ok: bool)
      modifies this
      ensures ok == accepts(Delivery(item, vector))
      ensures delivered == old(delivered) + (if ok then [Delivery(item, vector)] else [])
    {
      ok := accepts(Delivery(item, vector));
      if ok {
        delivered := delivered + [Delivery(item, vector)];
      }
    }
  }

  ghost predicate AcceptsAll(accepts: Delivery -> bool, group: seq<Input>, vector: Vector) {
    forall i :: 0 <= i < |group| ==> accepts(Delivery(group[i], vector))
  }

  /** The loop that materialises one group; `done` is what this run has delivered, on top of `base`. */
  method DeliverGroup(
      group: seq<Input>, vector: Vector, m: Materializer, ghost base: seq<Delivery>, ghost done: seq<Delivery>)
      returns (ok: bool, ghost taken: nat)
    requires m.delivered == base + done
    modifies m
    ensures taken <= |group| && m.delivered == base + (done + Deliveries(group[..taken], vector))
    ensures ok <==> AcceptsAll(m.accepts, group, vector)
    ensures ok <==> taken == |group|
  {
    var i := 0;
    assert done + Deliveries(group[..0], vector) == done;
    while i < |group|
      invariant 0 <= i <= |group| && m.delivered == base + (done + Deliveries(group[..i], vector))
      invariant forall j :: 0 <= j < i ==> m.accepts(Delivery(group[j], vector))
    {
      ghost var before := done + Deliveries(group[..i], vector);
      var accepted := m.Materialize(group[i], vector);
      if !accepted {
        return false, i;
      }
      assert before + [Delivery(group[i], vector)] == done + Deliveries(group[..i + 1], vector);
      assert base + before + [Delivery(group[i], vector)] == base + (before + [Delivery(group[i], vector)]);
      i := i + 1;
    }
    ok, taken := true, i;
  }

  // ----- What goes to whom -----

  /** A delivery is that of the item's own text: the cached vector if that was valid, else an answer of the encoder to
      exactly this text. */
  ghost predicate OwnVector(
      d: Delivery, before: map<string, Vector>, reply: (nat, seq<string>) -> Reply, dimension: nat)
  {
    var key := d.item.contentHash;
    && ValidVector(d.vector, dimension)
    && if Usable(before, key, dimension) then d.vector == before[key] else Answered(reply, d.item.text, d.vector)
  }

  ghost predicate AllOwn(
      done: seq<Delivery>, before: map<string, Vector>, reply: (nat, seq<string>) -> Reply, dimension: nat)
  {
    forall i :: 0 <= i < |done| ==> OwnVector(done[i], before, reply, dimension)
  }

  /** The vector is every item's own, if it is one at all. */
  ghost predicate GroupOwns(
      group: seq<Input>, vector: Vector, before: map<string, Vector>, reply: (nat, seq<string>) -> Reply,
      dimension: nat)
  {
    forall i :: 0 <= i < |group| && ValidVector(vector, dimension) ==>
      OwnVector(Delivery(group[i], vector), before, reply, dimension)
  }

  lemma OwnAppend(
      done: seq<Delivery>, group: seq<Input>, vector: Vector, taken: nat, before: map<string, Vector>,
      reply: (nat, seq<string>) -> Reply, dimension: nat)
    requires AllOwn(done, before, reply, dimension) && taken <= |group| && ValidVector(vector, dimension)
    requires GroupOwns(group, vector, before, reply, dimension)
    ensures AllOwn(done + Deliveries(group[..taken], vector), before, reply, dimension)
  {
    var more := Deliveries(group[..taken], vector);
    forall i | 0 <= i < taken ensures OwnVector(more[i], before, reply, dimension) {
      assert ItemsOf(more)[i] == group[i];
    }
  }

  lemma HitOwns(
      plan: Plan, items: seq<Input>, before: map<string, Vector>, reply: (nat, seq<string>) -> Reply, dimension: nat,
      digest: string -> string, i: nat)
    requires Plans(plan, items, before, dimension, digest) && i < |plan.hits|
    ensures plan.hits[i].0 in plan.groups
    ensures GroupOwns(plan.groups[plan.hits[i].0], plan.hits[i].1, before, reply, dimension)
  {
    var key := plan.hits[i].0;
    assert key in HitKeys(plan.hits);
    OwnHash(items, key, plan.groups[key]);
  }

  /** What the encoder replies to a unit's text is every group member's own. */
  lemma MissOwns(
      plan: Plan, items: seq<Input>, before: map<string, Vector>, reply: (nat, seq<string>) -> Reply, dimension: nat,
      digest: string -> string, unit: WorkUnit, vector: Vector)
    requires Plans(plan, items, before, dimension, digest) && Prepared(items, digest) && Injective(digest)
    requires unit.contentHash in plan.groups && MissNeeded(unit, before, dimension, digest)
    requires Answered(reply, unit.text, vector)
    ensures GroupOwns(plan.groups[unit.contentHash], vector, before, reply, dimension)
  {
    OwnHash(items, unit.contentHash, plan.groups[unit.contentHash]);
    OwnText(items, unit.contentHash, plan.groups[unit.contentHash], unit.text, digest);
  }

  /** All members of a group have the one text of its hash. */
  lemma OwnText(items: seq<Input>, key: string, group: seq<Input>, text: string, digest: string -> string)
    requires Prepared(items, digest) && Injective(digest) && key == digest(text)
    requires multiset(group) == multiset(Having(items, key))
    ensures forall i :: 0 <= i < |group| ==> group[i].text == text
  {
    var having := Having(items, key);
    forall i | 0 <= i < |group| ensures group[i].text == text {
      assert group[i] in multiset(having);
      var a :| 0 <= a < |having| && having[a] == group[i];
      var j :| 0 <= j < |items| && items[j] == group[i];
      assert digest(items[j].text) == digest(text);
    }
  }

  // ----- What can go wrong -----

  /** The first error of a list. */
  function First(errors: seq<Option<ExecuteError>>): Option<ExecuteError> {
    if errors == [] then None else if errors[0].Some? then errors[0] else First(errors[1..])
  }

  lemma {:induction false} FirstIs(errors: seq<Option<ExecuteError>>)
    ensures First(errors).None? <==> forall i :: 0 <= i < |errors| ==> errors[i].None?
    ensures First(errors).Some? ==> exists i ::
      (0 <= i < |errors| && errors[i] == First(errors) && forall j :: 0 <= j < i ==> errors[j].None?)
  {
    if errors != [] && errors[0].None? {
      FirstIs(errors[1..]);
      assert errors == [errors[0]] + errors[1..];
      if First(errors).Some? {
        var i :| 0 <= i < |errors[1..]| && errors[1..][i] == First(errors)
          && forall j :: 0 <= j < i ==> errors[1..][j].None?;
        assert errors[i + 1] == First(errors) && forall j :: 0 < j < i + 1 ==> errors[j] == errors[1..][j - 1];
      }
    }
  }

  lemma {:induction false} FirstAt(errors: seq<Option<ExecuteError>>, i: nat)
    requires i < |errors| && errors[i].Some? && forall j :: 0 <= j < i ==> errors[j].None?
    ensures First(errors) == errors[i]
  {
    if i > 0 {
      FirstAt(errors[1..], i - 1);
    }
  }

  /** What one unit of a batch meets: its vector is checked before anybody is handed it. */
  function UnitError(group: seq<Input>, vector: Vector, accepts: Delivery -> bool, dimension: nat): Option<ExecuteError> {
    if !ValidVector(vector, dimension) then Some(InvalidVector)
    else if exists i :: 0 <= i < |group| && !accepts(Delivery(group[i], vector)) then Some(MaterializerRaised)
    else None
  }

  function UnitErrors(
      work: seq<WorkUnit>, vectors: seq<Vector>, groups: map<string, seq<Input>>, accepts: Delivery -> bool,
      dimension: nat): (r: seq<Option<ExecuteError>>)
    requires |work| == |vectors| && forall i :: 0 <= i < |work| ==> work[i].contentHash in groups
    ensures |r| == |work|
    ensures forall i :: 0 <= i < |r| ==>
      r[i] == UnitError(groups[work[i].contentHash], vectors[i], accepts, dimension)
  {
    seq(|work|, i requires 0 <= i < |work| =>
      UnitError(groups[work[i].contentHash], vectors[i], accepts, dimension))
  }

  /** What one batch meets: a failing or miscounting encoder, else the first failing unit. */
  function BatchError(
      work: seq<WorkUnit>, reply: Reply, groups: map<string, seq<Input>>, accepts: Delivery -> bool, dimension: nat)
      : Option<ExecuteError>
    requires forall i :: 0 <= i < |work| ==> work[i].contentHash in groups
  {
    if reply.Raised? then Some(EncoderRaised)
    else if |reply.vectors| != |work| then Some(WrongCount)
    else First(UnitErrors(work, reply.vectors, groups, accepts, dimension))
  }

  /** The misses in batches of at most the given size. */
  function Batches(misses: seq<WorkUnit>, size: nat): seq<seq<WorkUnit>>
    requires 0 < size
  {
    if misses == [] then []
    else if |misses| <= size then [misses]
    else [misses[..size]] + Batches(misses[size..], size)
  }

  lemma {:induction false} BatchMembers(misses: seq<WorkUnit>, size: nat)
    requires 0 < size
    ensures forall b, i :: 0 <= b < |Batches(misses, size)| && 0 <= i < |Batches(misses, size)[b]| ==>
      Batches(misses, size)[b][i] in misses
    ensures forall b :: 0 <= b < |Batches(misses, size)| ==> 0 < |Batches(misses, size)[b]| <= size
    decreases |misses|
  {
    if |misses| > size {
      BatchMembers(misses[size..], size);
      var rest := Batches(misses[size..], size);
      forall b, i | 0 <= b < |rest| && 0 <= i < |rest[b]| ensures rest[b][i] in misses {
        assert rest[b][i] in misses[size..];
      }
    }
  }

  /** Every unit of work has its group. */
  ghost predicate Placed(batches: seq<seq<WorkUnit>>, groups: map<string, seq<Input>>) {
    forall b, i :: 0 <= b < |batches| && 0 <= i < |batches[b]| ==> batches[b][i].contentHash in groups
  }

  /** What every batch meets, when the encoder has been called `calls` times before. */
  ghost function BatchErrors(
      batches: seq<seq<WorkUnit>>, calls: nat, reply: (nat, seq<string>) -> Reply, groups: map<string, seq<Input>>,
      accepts: Delivery -> bool, dimension: nat): (r: seq<Option<ExecuteError>>)
    requires Placed(batches, groups)
    ensures |r| == |batches|
    ensures forall b :: 0 <= b < |r| ==>
      r[b] == BatchError(batches[b], reply(calls + b, TextsOf(batches[b])), groups, accepts, dimension)
  {
    seq(|batches|, b requires 0 <= b < |batches| =>
      BatchError(batches[b], reply(calls + b, TextsOf(batches[b])), groups, accepts, dimension))
  }

  ghost predicate HitsAccepted(
      hits: seq<(string, Vector)>, groups: map<string, seq<Input>>, accepts: Delivery -> bool)
    requires forall i :: 0 <= i < |hits| ==> hits[i].0 in groups
  {
    AcceptedUpTo(hits, groups, accepts, |hits|)
  }

  ghost predicate AcceptedUpTo(
      hits: seq<(string, Vector)>, groups: map<string, seq<Input>>, accepts: Delivery -> bool, n: nat)
    requires n <= |hits| && forall i :: 0 <= i < |hits| ==> hits[i].0 in groups
  {
    forall i :: 0 <= i < n ==> AcceptsAll(accepts, groups[hits[i].0], hits[i].1)
  }

  lemma NextAccepted(
      hits: seq<(string, Vector)>, groups: map<string, seq<Input>>, accepts: Delivery -> bool, n: nat)
    requires n < |hits| && (forall i :: 0 <= i < |hits| ==> hits[i].0 in groups)
    requires AcceptedUpTo(hits, groups, accepts, n)
    ensures AcceptsAll(accepts, groups[hits[n].0], hits[n].1) <==> AcceptedUpTo(hits, groups, accepts, n + 1)
    ensures !AcceptsAll(accepts, groups[hits[n].0], hits[n].1) ==> !HitsAccepted(hits, groups, accepts)
  {
  }

  lemma DeliveredKeys(done: seq<Delivery>, items: seq<Input>, keys: set<string>)
    requires multiset(ItemsOf(done)) == multiset(Among(items, keys))
    ensures forall i :: 0 <= i < |done| ==> done[i].item.contentHash in keys
  {
    var among := Among(items, keys);
    AmongKeys(items, keys);
    forall i | 0 <= i < |done| ensures done[i].item.contentHash in keys {
      assert ItemsOf(done)[i] in multiset(among);
    }
  }

  lemma {:induction false} AmongKeys(items: seq<Input>, keys: set<string>)
    ensures forall i :: 0 <= i < |Among(items, keys)| ==> Among(items, keys)[i].contentHash in keys
  {
    if items != [] {
      AmongKeys(items[..|items| - 1], keys);
    }
  }

  /** Delivering a group nobody has been delivered yet. */
  lemma GroupDelivered(
      done: seq<Delivery>, items: seq<Input>, keys: set<string>, key: string, group: seq<Input>, vector: Vector,
      vectors: map<string, Vector>)
    requires Delivered(done, items, keys, vectors) && key !in keys
    requires multiset(group) == multiset(Having(items, key))
    ensures Delivered(done + Deliveries(group, vector), items, keys + {key}, vectors[key := vector])
  {
    ItemsAppend(done, Deliveries(group, vector));
    AmongGrows(items, keys, key);
    OwnHash(items, key, group);
    DeliveredKeys(done, items, keys);
    var more := Deliveries(group, vector);
    forall i | 0 <= i < |more| ensures more[i].item.contentHash == key && more[i].vector == vector {
      assert ItemsOf(more)[i] == group[i];
    }
  }

  lemma OwnHash(items: seq<Input>, key: string, group: seq<Input>)
    requires multiset(group) == multiset(Having(items, key))
    ensures forall i :: 0 <= i < |group| ==> group[i].contentHash == key
  {
    var having := Having(items, key);
    forall i | 0 <= i < |group| ensures group[i].contentHash == key {
      assert group[i] in multiset(having);
    }
  }

  /** Stopping inside a group leaves nothing delivered twice. */
  lemma StoppedInside(
      done: seq<Delivery>, items: seq<Input>, keys: set<string>, key: string, group: seq<Input>, vector: Vector, m: nat)
    requires multiset(ItemsOf(done)) == multiset(Among(items, keys)) && key !in keys
    requires multiset(group) == multiset(Having(items, key)) && m <= |group|
    ensures multiset(ItemsOf(done + Deliveries(group[..m], vector))) <= multiset(items)
  {
    ItemsAppend(done, Deliveries(group[..m], vector));
    AmongGrows(items, keys, key);
    AmongBelow(items, keys + {key});
    assert group == group[..m] + group[m..];
  }

  /** The cache: `get_many` and `put_many`. */
  class EmbeddingCache {
    var vectors: map<string, Vector>

    constructor (vectors: map<string, Vector>)
      ensures this.vectors == vectors
    {
      this.vectors := vectors;
    }

    method PutMany(added: map<string, Vector>)
      modifies this
      ensures vectors == old(vectors) + added
    {
      vectors := vectors + added;
    }
  }

  lemma HitKeysAppend(hits: seq<(string, Vector)>, i: nat)
    requires i < |hits| && DistinctHits(hits)
    ensures HitKeys(hits[..i + 1]) == HitKeys(hits[..i]) + {hits[i].0} && hits[i].0 !in HitKeys(hits[..i])
  {
    forall key ensures key in HitKeys(hits[..i + 1]) <==> key in HitKeys(hits[..i]) + {hits[i].0} {
      if key in HitKeys(hits[..i]) {
        var j :| 0 <= j < i && hits[..i][j].0 == key;
        assert hits[..i + 1][j].0 == key;
      }
      assert hits[..i + 1][i] == hits[i];
      if key in HitKeys(hits[..i + 1]) {
        var j :| 0 <= j <= i && hits[..i + 1][j].0 == key;
        assert j < i ==> hits[..i][j].0 == key;
      }
    }
  }

  lemma MissKeysAppend(work: seq<WorkUnit>, i: nat)
    requires i < |work| && DistinctWork(work)
    ensures MissKeys(work[..i + 1]) == MissKeys(work[..i]) + {work[i].contentHash}
    ensures work[i].contentHash !in MissKeys(work[..i])
  {
    forall key ensures key in MissKeys(work[..i + 1]) <==> key in MissKeys(work[..i]) + {work[i].contentHash} {
      if key in MissKeys(work[..i]) {
        var j :| 0 <= j < i && work[..i][j].contentHash == key;
        assert work[..i + 1][j].contentHash == key;
      }
      assert work[..i + 1][i] == work[i];
      if key in MissKeys(work[..i + 1]) {
        var j :| 0 <= j <= i && work[..i + 1][j].contentHash == key;
        assert j < i ==> work[..i][j].contentHash == key;
      }
    }
  }

  /** Nothing is delivered twice, whatever went wrong. */
  ghost predicate AtMostOnce(done: seq<Delivery>, items: seq<Input>) {
    multiset(ItemsOf(done)) <= multiset(items)
  }

  /** The loop over the cached groups. */
  method DeliverHits(
      plan: Plan, items: seq<Input>, cache: map<string, Vector>, dimension: nat, m: Materializer,
      ghost base: seq<Delivery>, ghost reply: (nat, seq<string>) -> Reply, ghost digest: string -> string)
      returns (ok: bool, completed: nat, ghost done: seq<Delivery>)
    requires Plans(plan, items, cache, dimension, digest) && m.delivered == base
    modifies m
    ensures m.delivered == base + done && AtMostOnce(done, items) && AllOwn(done, cache, reply, dimension)
    ensures forall i :: 0 <= i < |plan.hits| ==> plan.hits[i].0 in plan.groups
    ensures ok <==> HitsAccepted(plan.hits, plan.groups, m.accepts)
    ensures ok ==> completed == |plan.hits| && Delivered(done, items, HitKeys(plan.hits), cache)
  {
    var hits := plan.hits;
    done, completed := [], 0;
    assert base + [] == base;
    HitsStart(plan, items, cache, dimension, digest, reply);
    while completed < |hits|
      invariant completed <= |hits| && m.delivered == base + done
      invariant HitsAt(plan, items, cache, dimension, reply, completed, done)
      invariant AcceptedUpTo(hits, plan.groups, m.accepts, completed)
    {
      ghost var taken: nat;
      ok, taken := DeliverGroup(plan.groups[hits[completed].0], hits[completed].1, m, base, done);
      HitTaken(plan, items, cache, dimension, digest, reply, completed, done, taken);
      NextAccepted(hits, plan.groups, m.accepts, completed);
      done := done + Deliveries(plan.groups[hits[completed].0][..taken], hits[completed].1);
      if !ok {
        return;
      }
      completed := completed + 1;
    }
    HitsEnd(plan, items, cache, dimension, reply, done);
    ok := true;
  }

  /** The first n cached groups have been served. */
  ghost predicate HitsAt(
      plan: Plan, items: seq<Input>, cache: map<string, Vector>, dimension: nat, reply: (nat, seq<string>) -> Reply,
      n: nat, done: seq<Delivery>)
  {
    && n <= |plan.hits| && Delivered(done, items, HitKeys(plan.hits[..n]), cache)
    && AllOwn(done, cache, reply, dimension)
  }

  lemma HitsStart(
      plan: Plan, items: seq<Input>, cache: map<string, Vector>, dimension: nat, digest: string -> string,
      reply: (nat, seq<string>) -> Reply)
    requires Plans(plan, items, cache, dimension, digest)
    ensures HitsAt(plan, items, cache, dimension, reply, 0, [])
    ensures forall i :: 0 <= i < |plan.hits| ==> plan.hits[i].0 in plan.groups
  {
    assert HitKeys(plan.hits[..0]) == {};
    NothingAmong(items);
    HitsPlaced(plan, items, cache, dimension, digest);
  }

  lemma HitsEnd(
      plan: Plan, items: seq<Input>, cache: map<string, Vector>, dimension: nat, reply: (nat, seq<string>) -> Reply,
      done: seq<Delivery>)
    requires HitsAt(plan, items, cache, dimension, reply, |plan.hits|, done)
    ensures Delivered(done, items, HitKeys(plan.hits), cache) && AtMostOnce(done, items)
    ensures AllOwn(done, cache, reply, dimension)
  {
    assert plan.hits[..|plan.hits|] == plan.hits;
    AmongBelow(items, HitKeys(plan.hits));
  }

  lemma HitsPlaced(
      plan: Plan, items: seq<Input>, cache: map<string, Vector>, dimension: nat, digest: string -> string)
    requires Plans(plan, items, cache, dimension, digest)
    ensures forall i :: 0 <= i < |plan.hits| ==> plan.hits[i].0 in plan.groups
  {
    forall i | 0 <= i < |plan.hits| ensures plan.hits[i].0 in plan.groups {
      assert plan.hits[i].0 in HitKeys(plan.hits);
    }
  }

  /** A cached group is handed its vector, wholly or in part. */
  lemma HitTaken(
      plan: Plan, items: seq<Input>, cache: map<string, Vector>, dimension: nat, digest: string -> string,
      reply: (nat, seq<string>) -> Reply, i: nat, done: seq<Delivery>, taken: nat)
    requires Plans(plan, items, cache, dimension, digest) && i < |plan.hits| && plan.hits[i].0 in plan.groups
    requires HitsAt(plan, items, cache, dimension, reply, i, done)
    requires taken <= |plan.groups[plan.hits[i].0]|
    ensures
      var group := plan.groups[plan.hits[i].0];
      var after := done + Deliveries(group[..taken], plan.hits[i].1);
      && AtMostOnce(after, items) && AllOwn(after, cache, reply, dimension)
      && (taken == |group| ==> HitsAt(plan, items, cache, dimension, reply, i + 1, after))
  {
    var key, vector, group := plan.hits[i].0, plan.hits[i].1, plan.groups[plan.hits[i].0];
    HitKeysAppend(plan.hits, i);
    StoppedInside(done, items, HitKeys(plan.hits[..i]), key, group, vector, taken);
    HitOwns(plan, items, cache, reply, dimension, digest, i);
    OwnAppend(done, group, vector, taken, cache, reply, dimension);
    if taken == |group| {
      assert group[..taken] == group;
      GroupDelivered(done, items, HitKeys(plan.hits[..i]), key, group, vector, cache);
      assert cache[key := vector] == cache;
    }
  }

  lemma {:induction false} NothingAmong(items: seq<Input>)
    ensures Among(items, {}) == []
  {
    if items != [] {
      NothingAmong(items[..|items| - 1]);
    }
  }

  /** The first n vectors of a batch, by hash. */
  ghost predicate Collects(toCache: map<string, Vector>, work: seq<WorkUnit>, vectors: seq<Vector>, n: nat, dimension: nat)
    requires n <= |work| == |vectors|
  {
    && toCache.Keys == MissKeys(work[..n])
    && forall i :: 0 <= i < n ==>
      work[i].contentHash in toCache && toCache[work[i].contentHash] == vectors[i] && ValidVector(vectors[i], dimension)
  }

  lemma CollectsOne(
      toCache: map<string, Vector>, work: seq<WorkUnit>, vectors: seq<Vector>, n: nat, dimension: nat)
    requires n < |work| == |vectors| && DistinctWork(work)
    requires Collects(toCache, work, vectors, n, dimension) && ValidVector(vectors[n], dimension)
    ensures Collects(toCache[work[n].contentHash := vectors[n]], work, vectors, n + 1, dimension)
  {
    MissKeysAppend(work, n);
  }

  /** Where the loop over a batch stands after n units. */
  ghost predicate BatchAt(
      done: seq<Delivery>, toCache: map<string, Vector>, work: seq<WorkUnit>, vectors: seq<Vector>, n: nat,
      items: seq<Input>, dimension: nat, keys: set<string>, cache: map<string, Vector>)
    requires n <= |work| == |vectors|
  {
    && Collects(toCache, work, vectors, n, dimension)
    && Delivered(done, items, keys + MissKeys(work[..n]), cache + toCache)
  }

  lemma BatchStarts(
      done: seq<Delivery>, work: seq<WorkUnit>, vectors: seq<Vector>, items: seq<Input>, dimension: nat,
      keys: set<string>, cache: map<string, Vector>)
    requires |work| == |vectors| && Delivered(done, items, keys, cache)
    ensures BatchAt(done, map[], work, vectors, 0, items, dimension, keys, cache) && AtMostOnce(done, items)
  {
    assert work[..0] == [] && MissKeys(work[..0]) == {} && keys + {} == keys && cache + map[] == cache;
    AmongBelow(items, keys);
  }

  lemma BatchAdvances(
      done: seq<Delivery>, toCache: map<string, Vector>, work: seq<WorkUnit>, vectors: seq<Vector>, n: nat,
      items: seq<Input>, dimension: nat, keys: set<string>, cache: map<string, Vector>, group: seq<Input>)
    requires n < |work| == |vectors| && DistinctWork(work) && MissKeys(work) !! keys
    requires BatchAt(done, toCache, work, vectors, n, items, dimension, keys, cache)
    requires multiset(group) == multiset(Having(items, work[n].contentHash)) && ValidVector(vectors[n], dimension)
    ensures
      BatchAt(done + Deliveries(group, vectors[n]), toCache[work[n].contentHash := vectors[n]], work, vectors, n + 1,
              items, dimension, keys, cache)
  {
    var key, sofar := work[n].contentHash, keys + MissKeys(work[..n]);
    UnitIsNew(work, n, keys);
    GroupDelivered(done, items, sofar, key, group, vectors[n], cache + toCache);
    CollectsOne(toCache, work, vectors, n, dimension);
    assert (cache + toCache)[key := vectors[n]] == cache + toCache[key := vectors[n]];
    MissKeysAppend(work, n);
    assert sofar + {key} == keys + MissKeys(work[..n + 1]);
  }

  lemma UnitIsNew(work: seq<WorkUnit>, n: nat, keys: set<string>)
    requires n < |work| && DistinctWork(work) && MissKeys(work) !! keys
    ensures work[n].contentHash !in keys + MissKeys(work[..n])
  {
    MissKeysAppend(work, n);
    assert work[n].contentHash in MissKeys(work);
  }

  /** A unit's group is handed its vector, wholly or in part. */
  lemma UnitTaken(
      work: seq<WorkUnit>, vectors: seq<Vector>, n: nat, group: seq<Input>, items: seq<Input>, dimension: nat,
      done: seq<Delivery>, toCache: map<string, Vector>, keys: set<string>, cache: map<string, Vector>, taken: nat)
    requires n < |work| == |vectors| && DistinctWork(work) && MissKeys(work) !! keys
    requires BatchAt(done, toCache, work, vectors, n, items, dimension, keys, cache)
    requires multiset(group) == multiset(Having(items, work[n].contentHash)) && ValidVector(vectors[n], dimension)
    requires taken <= |group|
    ensures AtMostOnce(done + Deliveries(group[..taken], vectors[n]), items)
    ensures taken == |group| ==>
      BatchAt(done + Deliveries(group[..taken], vectors[n]), toCache[work[n].contentHash := vectors[n]], work, vectors,
              n + 1, items, dimension, keys, cache)
  {
    UnitIsNew(work, n, keys);
    StoppedInside(done, items, keys + MissKeys(work[..n]), work[n].contentHash, group, vectors[n], taken);
    if taken == |group| {
      assert group[..taken] == group;
      BatchAdvances(done, toCache, work, vectors, n, items, dimension, keys, cache, group);
    }
  }

  lemma BatchAtMostOnce(
      done: seq<Delivery>, toCache: map<string, Vector>, work: seq<WorkUnit>, vectors: seq<Vector>, n: nat,
      items: seq<Input>, dimension: nat, keys: set<string>, cache: map<string, Vector>)
    requires n <= |work| == |vectors| && BatchAt(done, toCache, work, vectors, n, items, dimension, keys, cache)
    ensures AtMostOnce(done, items)
  {
    AmongBelow(items, keys + MissKeys(work[..n]));
  }

  /** One unit of a batch: check its vector, then hand it to the whole group. */
  method DeliverUnit(
      work: seq<WorkUnit>, vectors: seq<Vector>, n: nat, group: seq<Input>, items: seq<Input>, dimension: nat,
      m: Materializer, ghost base: seq<Delivery>, ghost done: seq<Delivery>, ghost toCache: map<string, Vector>,
      ghost keys: set<string>, ghost cache: map<string, Vector>, ghost before: map<string, Vector>,
      ghost reply: (nat, seq<string>) -> Reply)
      returns (error: Option<ExecuteError>, ghost after: seq<Delivery>)
    requires n < |work| == |vectors| && DistinctWork(work) && MissKeys(work) !! keys
    requires BatchAt(done, toCache, work, vectors, n, items, dimension, keys, cache)
    requires multiset(group) == multiset(Having(items, work[n].contentHash))
    requires m.delivered == base + done && AllOwn(done, before, reply, dimension)
    requires GroupOwns(group, vectors[n], before, reply, dimension)
    modifies m
    ensures error == UnitError(group, vectors[n], m.accepts, dimension)
    ensures m.delivered == base + after && AtMostOnce(after, items) && AllOwn(after, before, reply, dimension)
    ensures error.None? ==>
      BatchAt(after, toCache[work[n].contentHash := vectors[n]], work, vectors, n + 1, items, dimension, keys, cache)
  {
    if !ValidVector(vectors[n], dimension) {
      BatchAtMostOnce(done, toCache, work, vectors, n, items, dimension, keys, cache);
      return Some(InvalidVector), done;
    }
    var ok: bool;
    ghost var taken: nat;
    ok, taken := DeliverGroup(group, vectors[n], m, base, done);
    after := done + Deliveries(group[..taken], vectors[n]);
    UnitTaken(work, vectors, n, group, items, dimension, done, toCache, keys, cache, taken);
    OwnAppend(done, group, vectors[n], taken, before, reply, dimension);
    error := if ok then None else Some(MaterializerRaised);
  }

  /** Every unit's vector is its group's own. */
  ghost predicate BatchOwns(
      work: seq<WorkUnit>, vectors: seq<Vector>, groups: map<string, seq<Input>>, before: map<string, Vector>,
      reply: (nat, seq<string>) -> Reply, dimension: nat)
    requires |work| == |vectors| && forall i :: 0 <= i < |work| ==> work[i].contentHash in groups
  {
    forall i :: 0 <= i < |work| ==> GroupOwns(groups[work[i].contentHash], vectors[i], before, reply, dimension)
  }

  /** The loop over one batch of encoded work. */
  method DeliverBatch(
      work: seq<WorkUnit>, vectors: seq<Vector>, groups: map<string, seq<Input>>, items: seq<Input>, dimension: nat,
      m: Materializer, ghost base: seq<Delivery>, ghost done: seq<Delivery>, ghost keys: set<string>,
      ghost cache: map<string, Vector>, ghost before: map<string, Vector>, ghost reply: (nat, seq<string>) -> Reply)
      returns (r: Result<map<string, Vector>, ExecuteError>, completed: nat, ghost after: seq<Delivery>)
    requires |work| == |vectors| && Grouped(groups, items) && DistinctWork(work) && MissKeys(work) !! keys
    requires forall i :: 0 <= i < |work| ==> work[i].contentHash in groups
    requires Delivered(done, items, keys, cache) && m.delivered == base + done
    requires AllOwn(done, before, reply, dimension) && BatchOwns(work, vectors, groups, before, reply, dimension)
    modifies m
    ensures First(UnitErrors(work, vectors, groups, m.accepts, dimension))
      == if r.Ok? then None else Some(r.error)
    ensures m.delivered == base + after && AtMostOnce(after, items) && AllOwn(after, before, reply, dimension)
    ensures r.Ok? ==>
      completed == |work| && BatchAt(after, r.value, work, vectors, |work|, items, dimension, keys, cache)
  {
    var toCache: map<string, Vector> := map[];
    ghost var errors := UnitErrors(work, vectors, groups, m.accepts, dimension);
    after, completed := done, 0;
    BatchStarts(done, work, vectors, items, dimension, keys, cache);
    while completed < |work|
      invariant completed <= |work| && m.delivered == base + after
      invariant BatchAt(after, toCache, work, vectors, completed, items, dimension, keys, cache)
      invariant AtMostOnce(after, items) && AllOwn(after, before, reply, dimension)
      invariant forall j :: 0 <= j < completed ==> errors[j].None?
    {
      var key := work[completed].contentHash;
      ghost var more: seq<Delivery>;
      var error: Option<ExecuteError>;
      error, more := DeliverUnit(
        work, vectors, completed, groups[key], items, dimension, m, base, after, toCache, keys, cache, before, reply);
      after := more;
      if error.Some? {
        FirstAt(errors, completed);
        r := Err(error.value);
        return;
      }
      toCache := toCache[key := vectors[completed]];
      completed := completed + 1;
    }
    FirstIs(errors);
    r := Ok(toCache);
  }

  // ----- The whole run -----

  /** The given keys are added or replaced, and no others. */
  ghost predicate ChangesOnly(before: map<string, Vector>, after: map<string, Vector>, keys: set<string>) {
    after.Keys == before.Keys + keys && forall key :: key in before && key !in keys ==> after[key] == before[key]
  }

  lemma ChangesCompose(
      before: map<string, Vector>, cache: map<string, Vector>, toCache: map<string, Vector>, keys: set<string>)
    requires ChangesOnly(before, cache, keys)
    ensures ChangesOnly(before, cache + toCache, keys + toCache.Keys)
  {
  }

  /** What the cache holds once the first n misses are done: their vectors, each the encoder's answer to the text of
      its hash, and otherwise what it held before. */
  ghost predicate Stored(
      before: map<string, Vector>, after: map<string, Vector>, misses: seq<WorkUnit>, n: nat,
      encode: (nat, seq<string>) -> Reply, dimension: nat)
    requires n <= |misses|
  {
    && ChangesOnly(before, after, MissKeys(misses[..n]))
    && (forall i :: 0 <= i < n ==> StoredFor(after, misses[i], encode, dimension))
  }

  ghost predicate StoredFor(
      vectors: map<string, Vector>, unit: WorkUnit, encode: (nat, seq<string>) -> Reply, dimension: nat)
  {
    Usable(vectors, unit.contentHash, dimension) && Answered(encode, unit.text, vectors[unit.contentHash])
  }

  lemma MissKeysConcat(a: seq<WorkUnit>, b: seq<WorkUnit>)
    ensures MissKeys(a + b) == MissKeys(a) + MissKeys(b)
  {
    forall key ensures key in MissKeys(a + b) <==> key in MissKeys(a) + MissKeys(b) {
      if key in MissKeys(a) {
        var i :| 0 <= i < |a| && a[i].contentHash == key;
        assert (a + b)[i].contentHash == key;
      }
      if key in MissKeys(b) {
        var i :| 0 <= i < |b| && b[i].contentHash == key;
        assert (a + b)[|a| + i].contentHash == key;
      }
      if key in MissKeys(a + b) {
        var i :| 0 <= i < |a + b| && (a + b)[i].contentHash == key;
        assert i < |a| ==> a[i].contentHash == key;
        assert i >= |a| ==> b[i - |a|].contentHash == key;
      }
    }
  }

  lemma KeysAfterBatch(misses: seq<WorkUnit>, start: nat, end: nat)
    requires start <= end <= |misses|
    ensures MissKeys(misses[..end]) == MissKeys(misses[..start]) + MissKeys(misses[start..end])
  {
    assert misses[..end] == misses[..start] + misses[start..end];
    MissKeysConcat(misses[..start], misses[start..end]);
  }

  /** The encoder was asked this list in some call, and gave these vectors. */
  ghost predicate Replied(
      encode: (nat, seq<string>) -> Reply, call: nat, work: seq<WorkUnit>, vectors: seq<Vector>)
  {
    encode(call, TextsOf(work)) == Returned(vectors) && |vectors| == |work|
  }

  lemma NewlyStored(
      cache: map<string, Vector>, toCache: map<string, Vector>, work: seq<WorkUnit>, vectors: seq<Vector>, i: nat,
      call: nat, encode: (nat, seq<string>) -> Reply, dimension: nat)
    requires i < |work| && Replied(encode, call, work, vectors)
    requires Collects(toCache, work, vectors, |work|, dimension)
    ensures StoredFor(cache + toCache, work[i], encode, dimension)
  {
    var texts := TextsOf(work);
    assert texts[i] == work[i].text && AnswersAt(encode, call, texts, i, vectors[i]);
    assert (cache + toCache)[work[i].contentHash] == toCache[work[i].contentHash];
  }

  /** `put_many` after a batch. */
  lemma BatchStored(
      before: map<string, Vector>, cache: map<string, Vector>, misses: seq<WorkUnit>, start: nat, end: nat,
      vectors: seq<Vector>, toCache: map<string, Vector>, call: nat, encode: (nat, seq<string>) -> Reply,
      dimension: nat)
    requires start <= end <= |misses| && DistinctWork(misses)
    requires Stored(before, cache, misses, start, encode, dimension)
    requires Replied(encode, call, misses[start..end], vectors)
    requires Collects(toCache, misses[start..end], vectors, end - start, dimension)
    ensures Stored(before, cache + toCache, misses, end, encode, dimension)
  {
    KeysAfterBatch(misses, start, end);
    assert misses[start..end][..end - start] == misses[start..end];
    ChangesCompose(before, cache, toCache, MissKeys(misses[..start]));
    forall i | 0 <= i < end ensures StoredFor(cache + toCache, misses[i], encode, dimension) {
      StaysStored(before, cache, misses, start, end, vectors, toCache, call, encode, dimension, i);
    }
  }

  lemma StaysStored(
      before: map<string, Vector>, cache: map<string, Vector>, misses: seq<WorkUnit>, start: nat, end: nat,
      vectors: seq<Vector>, toCache: map<string, Vector>, call: nat, encode: (nat, seq<string>) -> Reply,
      dimension: nat, i: nat)
    requires start <= end <= |misses| && DistinctWork(misses) && i < end
    requires Stored(before, cache, misses, start, encode, dimension)
    requires Replied(encode, call, misses[start..end], vectors)
    requires Collects(toCache, misses[start..end], vectors, end - start, dimension)
    ensures StoredFor(cache + toCache, misses[i], encode, dimension)
  {
    var work := misses[start..end];
    assert work[..end - start] == work;
    if i < start {
      NotInBatch(misses, start, end, i);
      StoredApart(cache, toCache, misses[i], encode, dimension);
    } else {
      assert work[i - start] == misses[i];
      NewlyStored(cache, toCache, work, vectors, i - start, call, encode, dimension);
    }
  }

  lemma StoredApart(
      cache: map<string, Vector>, toCache: map<string, Vector>, unit: WorkUnit, encode: (nat, seq<string>) -> Reply,
      dimension: nat)
    requires StoredFor(cache, unit, encode, dimension) && unit.contentHash !in toCache
    ensures StoredFor(cache + toCache, unit, encode, dimension)
  {
    assert (cache + toCache)[unit.contentHash] == cache[unit.contentHash];
  }

  lemma NotInBatch(misses: seq<WorkUnit>, start: nat, end: nat, i: nat)
    requires i < start <= end <= |misses| && DistinctWork(misses)
    ensures misses[i].contentHash !in MissKeys(misses[start..end])
  {
    forall j | 0 <= j < end - start ensures misses[start..end][j].contentHash != misses[i].contentHash {
      assert misses[start..end][j] == misses[start + j];
    }
  }

  /** Where the run stands after the first n misses. */
  ghost predicate MissesAt(
      before: map<string, Vector>, after: map<string, Vector>, plan: Plan, n: nat, done: seq<Delivery>,
      items: seq<Input>, encode: (nat, seq<string>) -> Reply, dimension: nat)
    requires n <= |plan.misses|
  {
    && Stored(before, after, plan.misses, n, encode, dimension)
    && Delivered(done, items, HitKeys(plan.hits) + MissKeys(plan.misses[..n]), after)
  }

  lemma BatchIsNew(
      plan: Plan, items: seq<Input>, cache: map<string, Vector>, dimension: nat, digest: string -> string, start: nat,
      end: nat)
    requires Plans(plan, items, cache, dimension, digest) && start <= end <= |plan.misses|
    ensures DistinctWork(plan.misses[start..end])
    ensures MissKeys(plan.misses[start..end]) !! HitKeys(plan.hits) + MissKeys(plan.misses[..start])
    ensures forall i :: 0 <= i < end - start ==> plan.misses[start..end][i].contentHash in plan.groups
  {
    SliceOfWork(plan.misses, plan.groups, start, end);
    var work := plan.misses[start..end];
    forall key | key in MissKeys(work) ensures key !in HitKeys(plan.hits) && key !in MissKeys(plan.misses[..start]) {
      var i :| 0 <= i < |work| && work[i].contentHash == key;
      UnitIsApart(plan, items, cache, dimension, digest, start, start + i);
    }
  }

  lemma SliceOfWork(misses: seq<WorkUnit>, groups: map<string, seq<Input>>, start: nat, end: nat)
    requires start <= end <= |misses| && DistinctWork(misses) && Describe(misses, groups)
    ensures DistinctWork(misses[start..end])
    ensures forall i :: 0 <= i < end - start ==> misses[start..end][i].contentHash in groups
  {
    assert forall i | 0 <= i < end - start :: misses[start..end][i] == misses[start + i];
  }

  lemma UnitIsApart(
      plan: Plan, items: seq<Input>, cache: map<string, Vector>, dimension: nat, digest: string -> string, start: nat,
      i: nat)
    requires Plans(plan, items, cache, dimension, digest) && start <= i < |plan.misses|
    ensures plan.misses[i].contentHash !in HitKeys(plan.hits)
    ensures plan.misses[i].contentHash !in MissKeys(plan.misses[..start])
  {
    assert MissNeeded(plan.misses[i], cache, dimension, digest);
    forall j | 0 <= j < start ensures plan.misses[..start][j].contentHash != plan.misses[i].contentHash {
      assert plan.misses[..start][j] == plan.misses[j];
    }
  }

  /** One pass of the loop over batches, when nothing goes wrong. */
  lemma BatchDone(
      before: map<string, Vector>, cache: map<string, Vector>, plan: Plan, start: nat, end: nat, done: seq<Delivery>,
      items: seq<Input>, vectors: seq<Vector>, toCache: map<string, Vector>, call: nat,
      encode: (nat, seq<string>) -> Reply, dimension: nat)
    requires start <= end <= |plan.misses| && DistinctWork(plan.misses)
    requires Stored(before, cache, plan.misses, start, encode, dimension)
    requires Replied(encode, call, plan.misses[start..end], vectors)
    requires BatchAt(done, toCache, plan.misses[start..end], vectors, end - start, items, dimension,
                     HitKeys(plan.hits) + MissKeys(plan.misses[..start]), cache)
    ensures MissesAt(before, cache + toCache, plan, end, done, items, encode, dimension)
  {
    var work := plan.misses[start..end];
    assert work[..end - start] == work;
    BatchStored(before, cache, plan.misses, start, end, vectors, toCache, call, encode, dimension);
    KeysAfterBatch(plan.misses, start, end);
    assert HitKeys(plan.hits) + MissKeys(plan.misses[..start]) + MissKeys(work)
        == HitKeys(plan.hits) + MissKeys(plan.misses[..end]);
  }

  /** The encoder's reply to a batch gives every group of the batch its own vector. */
  lemma ReplyOwns(
      plan: Plan, items: seq<Input>, before: map<string, Vector>, reply: (nat, seq<string>) -> Reply, dimension: nat,
      digest: string -> string, start: nat, end: nat, call: nat, vectors: seq<Vector>)
    requires Plans(plan, items, before, dimension, digest) && Prepared(items, digest) && Injective(digest)
    requires start <= end <= |plan.misses| && Replied(reply, call, plan.misses[start..end], vectors)
    requires forall i :: 0 <= i < end - start ==> plan.misses[start..end][i].contentHash in plan.groups
    ensures BatchOwns(plan.misses[start..end], vectors, plan.groups, before, reply, dimension)
  {
    var work := plan.misses[start..end];
    forall i | 0 <= i < |work|
      ensures GroupOwns(plan.groups[work[i].contentHash], vectors[i], before, reply, dimension)
    {
      assert work[i] == plan.misses[start + i] && MissNeeded(work[i], before, dimension, digest);
      assert TextsOf(work)[i] == work[i].text && AnswersAt(reply, call, TextsOf(work), i, vectors[i]);
      MissOwns(plan, items, before, reply, dimension, digest, work[i], vectors[i]);
    }
  }

  /** Call `call` of the encoder, for the misses from `start` to `end`, leads to `error`. */
  ghost predicate CallLeadsTo(
      error: Option<ExecuteError>, plan: Plan, start: nat, end: nat, call: nat, reply: (nat, seq<string>) -> Reply,
      accepts: Delivery -> bool, dimension: nat)
    requires start <= end <= |plan.misses|
  {
    var work := plan.misses[start..end];
    && (forall i :: 0 <= i < |work| ==> work[i].contentHash in plan.groups)
    && error == BatchError(work, reply(call, TextsOf(work)), plan.groups, accepts, dimension)
  }

  /** One batch: encode, check, deliver; the caller stores the vectors afterwards. */
  method RunBatch(
      plan: Plan, start: nat, end: nat, items: seq<Input>, encoder: Encoder, m: Materializer, dimension: nat,
      ghost base: seq<Delivery>, ghost done: seq<Delivery>, ghost before: map<string, Vector>,
      ghost cache: map<string, Vector>, ghost digest: string -> string)
      returns (r: Result<map<string, Vector>, ExecuteError>, completed: nat, ghost after: seq<Delivery>)
    requires start <= end <= |plan.misses| && Plans(plan, items, before, dimension, digest)
    requires Prepared(items, digest) && Injective(digest)
    requires MissesAt(before, cache, plan, start, done, items, encoder.reply, dimension)
    requires m.delivered == base + done && AtMostOnce(done, items) && AllOwn(done, before, encoder.reply, dimension)
    modifies encoder, m
    ensures encoder.calls == old(encoder.calls) + [TextsOf(plan.misses[start..end])]
    ensures
      CallLeadsTo(if r.Ok? then None else Some(r.error), plan, start, end, |old(encoder.calls)|, encoder.reply,
                  m.accepts, dimension)
    ensures m.delivered == base + after && AtMostOnce(after, items)
    ensures AllOwn(after, before, encoder.reply, dimension)
    ensures r.Ok? ==>
      completed == end - start && MissesAt(before, cache + r.value, plan, end, after, items, encoder.reply, dimension)
  {
    var work := plan.misses[start..end];
    BatchIsNew(plan, items, before, dimension, digest, start, end);
    ghost var call := |encoder.calls|;
    var reply := encoder.Encode(TextsOf(work));
    if reply.Raised? {
      return Err(EncoderRaised), 0, done;
    }
    if |reply.vectors| != |work| {
      return Err(WrongCount), 0, done;
    }
    ReplyOwns(plan, items, before, encoder.reply, dimension, digest, start, end, call, reply.vectors);
    r, completed, after := DeliverBatch(
      work, reply.vectors, plan.groups, items, dimension, m, base, done,
      HitKeys(plan.hits) + MissKeys(plan.misses[..start]), cache, before, encoder.reply);
    if r.Ok? {
      BatchDone(
        before, cache, plan, start, end, after, items, reply.vectors, r.value, call, encoder.reply, dimension);
    }
  }

  /** All texts of some calls, in order. */
  function Flat(calls: seq<seq<string>>): seq<string> {
    if calls == [] then [] else Flat(calls[..|calls| - 1]) + calls[|calls| - 1]
  }

  lemma FlatAppend(calls: seq<seq<string>>, misses: seq<WorkUnit>, start: nat, end: nat)
    requires start <= end <= |misses| && Flat(calls) == TextsOf(misses[..start])
    ensures Flat(calls + [TextsOf(misses[start..end])]) == TextsOf(misses[..end])
  {
    var longer := calls + [TextsOf(misses[start..end])];
    assert longer[..|longer| - 1] == calls;
    assert misses[..end] == misses[..start] + misses[start..end];
  }

  function Earlier(start: nat, size: nat, n: nat): nat {
    if start + size < n then start + size else n
  }

  lemma NextBatch(misses: seq<WorkUnit>, start: nat, size: nat)
    requires 0 < size && start < |misses|
    ensures
      var end := Earlier(start, size, |misses|);
      Batches(misses[start..], size) == [misses[start..end]] + Batches(misses[end..], size)
  {
    var end := Earlier(start, size, |misses|);
    if |misses| - start > size {
      assert misses[start..][..size] == misses[start..end] && misses[start..][size..] == misses[end..];
    } else {
      assert misses[start..] == misses[start..end] && misses[end..] == [];
    }
  }

  /** The plan's batches, placed in its groups. */
  lemma BatchesPlaced(plan: Plan, size: nat)
    requires 0 < size && Describe(plan.misses, plan.groups)
    ensures Placed(Batches(plan.misses, size), plan.groups)
  {
    BatchMembers(plan.misses, size);
  }

  /** The calls of the encoder are the batches in turn, as far as they go. */
  ghost predicate InTurn(asked: seq<seq<string>>, batches: seq<seq<WorkUnit>>) {
    |asked| <= |batches| && forall b :: 0 <= b < |asked| ==> asked[b] == TextsOf(batches[b])
  }

  /** Where the loop over batches stands: b batches done, of start misses, without an error. */
  ghost predicate RunAt(
      plan: Plan, size: nat, start: nat, asked: seq<seq<string>>, calls: nat, reply: (nat, seq<string>) -> Reply,
      accepts: Delivery -> bool, dimension: nat)
    requires 0 < size && Placed(Batches(plan.misses, size), plan.groups)
  {
    var batches, b := Batches(plan.misses, size), |asked|;
    && start <= |plan.misses| && InTurn(asked, batches) && batches[b..] == Batches(plan.misses[start..], size)
    && Flat(asked) == TextsOf(plan.misses[..start])
    && forall j :: 0 <= j < b ==> BatchErrors(batches, calls, reply, plan.groups, accepts, dimension)[j].None?
  }

  lemma RunStarts(
      plan: Plan, size: nat, calls: nat, reply: (nat, seq<string>) -> Reply, accepts: Delivery -> bool,
      dimension: nat)
    requires 0 < size && Placed(Batches(plan.misses, size), plan.groups)
    ensures RunAt(plan, size, 0, [], calls, reply, accepts, dimension)
  {
    assert plan.misses[0..] == plan.misses && TextsOf(plan.misses[..0]) == [];
  }

  lemma RunEnds(
      plan: Plan, size: nat, asked: seq<seq<string>>, calls: nat, reply: (nat, seq<string>) -> Reply,
      accepts: Delivery -> bool, dimension: nat)
    requires 0 < size && Placed(Batches(plan.misses, size), plan.groups)
    requires RunAt(plan, size, |plan.misses|, asked, calls, reply, accepts, dimension)
    ensures Flat(asked) == TextsOf(plan.misses) && InTurn(asked, Batches(plan.misses, size))
    ensures |asked| == |Batches(plan.misses, size)|
    ensures First(BatchErrors(Batches(plan.misses, size), calls, reply, plan.groups, accepts, dimension)).None?
  {
    assert plan.misses[..|plan.misses|] == plan.misses && plan.misses[|plan.misses|..] == [];
    FirstIs(BatchErrors(Batches(plan.misses, size), calls, reply, plan.groups, accepts, dimension));
  }

  /** One batch further, or at the first error. */
  lemma RunSteps(
      plan: Plan, size: nat, start: nat, asked: seq<seq<string>>, calls: nat, reply: (nat, seq<string>) -> Reply,
      accepts: Delivery -> bool, dimension: nat, error: Option<ExecuteError>)
    requires 0 < size && Placed(Batches(plan.misses, size), plan.groups) && start < |plan.misses|
    requires RunAt(plan, size, start, asked, calls, reply, accepts, dimension)
    requires
      CallLeadsTo(error, plan, start, Earlier(start, size, |plan.misses|), calls + |asked|, reply, accepts, dimension)
    ensures
      var end := Earlier(start, size, |plan.misses|);
      var more := asked + [TextsOf(plan.misses[start..end])];
      && Flat(more) == TextsOf(plan.misses[..end]) && InTurn(more, Batches(plan.misses, size))
      && (error.None? ==> RunAt(plan, size, end, more, calls, reply, accepts, dimension))
      && (error.Some? ==>
            First(BatchErrors(Batches(plan.misses, size), calls, reply, plan.groups, accepts, dimension)) == error)
  {
    var batches, b, end := Batches(plan.misses, size), |asked|, Earlier(start, size, |plan.misses|);
    NextBatch(plan.misses, start, size);
    NextTurn(asked, batches, plan.misses[start..end], Batches(plan.misses[end..], size));
    FlatAppend(asked, plan.misses, start, end);
    if error.Some? {
      FirstAt(BatchErrors(batches, calls, reply, plan.groups, accepts, dimension), b);
    }
  }

  lemma NextTurn(
      asked: seq<seq<string>>, batches: seq<seq<WorkUnit>>, next: seq<WorkUnit>, rest: seq<seq<WorkUnit>>)
    requires InTurn(asked, batches) && batches[|asked|..] == [next] + rest
    ensures InTurn(asked + [TextsOf(next)], batches) && batches[|asked|] == next && batches[|asked| + 1..] == rest
  {
    assert batches[|asked|..][0] == next && batches[|asked|..][1..] == batches[|asked| + 1..];
  }

  /** The state of the loop over batches before batch |asked|, when start misses are done. */
  ghost predicate LoopAt(
      plan: Plan, size: nat, start: nat, before: map<string, Vector>, cache: map<string, Vector>, done: seq<Delivery>,
      asked: seq<seq<string>>, items: seq<Input>, calls: nat, reply: (nat, seq<string>) -> Reply,
      accepts: Delivery -> bool, dimension: nat)
    requires 0 < size && Placed(Batches(plan.misses, size), plan.groups)
  {
    && RunAt(plan, size, start, asked, calls, reply, accepts, dimension)
    && MissesAt(before, cache, plan, start, done, items, reply, dimension)
    && AtMostOnce(done, items) && AllOwn(done, before, reply, dimension)
  }

  /** What a run that stops at an error leaves behind. */
  ghost predicate Stopped(
      error: Option<ExecuteError>, plan: Plan, size: nat, start: nat, before: map<string, Vector>,
      cache: map<string, Vector>, done: seq<Delivery>, asked: seq<seq<string>>, items: seq<Input>, calls: nat,
      reply: (nat, seq<string>) -> Reply, accepts: Delivery -> bool, dimension: nat)
    requires 0 < size && Placed(Batches(plan.misses, size), plan.groups) && start <= |plan.misses|
  {
    && First(BatchErrors(Batches(plan.misses, size), calls, reply, plan.groups, accepts, dimension)) == error
    && Stored(before, cache, plan.misses, start, reply, dimension) && Flat(asked) <= TextsOf(plan.misses)
    && InTurn(asked, Batches(plan.misses, size))
    && AtMostOnce(done, items) && AllOwn(done, before, reply, dimension)
  }

  /** One batch, with its vectors stored if nothing went wrong. */
  method StepMisses(
      cache: EmbeddingCache, encoder: Encoder, m: Materializer, plan: Plan, start: nat, items: seq<Input>,
      dimension: nat, size: nat, ghost base: seq<Delivery>, ghost done: seq<Delivery>, ghost asked: seq<seq<string>>,
      ghost calls: nat, ghost before: map<string, Vector>, ghost digest: string -> string)
      returns (error: Option<ExecuteError>, completed: nat, ghost after: seq<Delivery>, ghost more: seq<seq<string>>)
    requires 0 < size && Plans(plan, items, before, dimension, digest) && start < |plan.misses|
    requires Prepared(items, digest) && Injective(digest) && Placed(Batches(plan.misses, size), plan.groups)
    requires |encoder.calls| == calls + |asked| && m.delivered == base + done
    requires
      LoopAt(plan, size, start, before, cache.vectors, done, asked, items, calls, encoder.reply, m.accepts, dimension)
    modifies cache, encoder, m
    ensures |more| == |asked| + 1 && more[..|asked|] == asked
    ensures encoder.calls == old(encoder.calls) + more[|asked|..] && m.delivered == base + after
    ensures error.None? ==>
      && start < completed <= |plan.misses|
      && LoopAt(plan, size, completed, before, cache.vectors, after, more, items, calls, encoder.reply, m.accepts,
                dimension)
    ensures error.Some? ==>
      Stopped(error, plan, size, start, before, cache.vectors, after, more, items, calls, encoder.reply, m.accepts,
              dimension)
  {
    var end := Earlier(start, size, |plan.misses|);
    var r: Result<map<string, Vector>, ExecuteError>, n: nat;
    r, n, after := RunBatch(plan, start, end, items, encoder, m, dimension, base, done, before, cache.vectors, digest);
    more := asked + [TextsOf(plan.misses[start..end])];
    completed := start + n;
    assert RunAt(plan, size, start, asked, calls, encoder.reply, m.accepts, dimension);
    if r.Ok? {
      error := None;
      assert CallLeadsTo(error, plan, start, end, calls + |asked|, encoder.reply, m.accepts, dimension);
      cache.PutMany(r.value);
      assert MissesAt(before, cache.vectors, plan, end, after, items, encoder.reply, dimension);
      StepGoesOn(plan, size, start, before, cache.vectors, after, asked, items, calls, encoder.reply, m.accepts,
                 dimension);
      assert completed == end;
    } else {
      error := Some(r.error);
      assert CallLeadsTo(error, plan, start, end, calls + |asked|, encoder.reply, m.accepts, dimension);
      assert Stored(before, cache.vectors, plan.misses, start, encoder.reply, dimension);
      StepStops(error, plan, size, start, before, cache.vectors, after, asked, items, calls, encoder.reply, m.accepts,
                dimension);
    }
  }

  lemma StepGoesOn(
      plan: Plan, size: nat, start: nat, before: map<string, Vector>, cache: map<string, Vector>, done: seq<Delivery>,
      asked: seq<seq<string>>, items: seq<Input>, calls: nat, reply: (nat, seq<string>) -> Reply,
      accepts: Delivery -> bool, dimension: nat)
    requires 0 < size && Placed(Batches(plan.misses, size), plan.groups) && start < |plan.misses|
    requires RunAt(plan, size, start, asked, calls, reply, accepts, dimension)
    requires
      CallLeadsTo(None, plan, start, Earlier(start, size, |plan.misses|), calls + |asked|, reply, accepts, dimension)
    requires MissesAt(before, cache, plan, Earlier(start, size, |plan.misses|), done, items, reply, dimension)
    requires AtMostOnce(done, items) && AllOwn(done, before, reply, dimension)
    ensures
      var end := Earlier(start, size, |plan.misses|);
      LoopAt(plan, size, end, before, cache, done, asked + [TextsOf(plan.misses[start..end])], items, calls, reply,
             accepts, dimension)
  {
    RunSteps(plan, size, start, asked, calls, reply, accepts, dimension, None);
  }

  lemma StepStops(
      error: Option<ExecuteError>, plan: Plan, size: nat, start: nat, before: map<string, Vector>,
      cache: map<string, Vector>, done: seq<Delivery>, asked: seq<seq<string>>, items: seq<Input>, calls: nat,
      reply: (nat, seq<string>) -> Reply, accepts: Delivery -> bool, dimension: nat)
    requires 0 < size && Placed(Batches(plan.misses, size), plan.groups) && start < |plan.misses| && error.Some?
    requires RunAt(plan, size, start, asked, calls, reply, accepts, dimension)
    requires
      CallLeadsTo(error, plan, start, Earlier(start, size, |plan.misses|), calls + |asked|, reply, accepts, dimension)
    requires Stored(before, cache, plan.misses, start, reply, dimension)
    requires AtMostOnce(done, items) && AllOwn(done, before, reply, dimension)
    ensures
      var end := Earlier(start, size, |plan.misses|);
      Stopped(error, plan, size, start, before, cache, done, asked + [TextsOf(plan.misses[start..end])], items, calls,
              reply, accepts, dimension)
  {
    RunSteps(plan, size, start, asked, calls, reply, accepts, dimension, error);
    PrefixOfTexts(plan.misses, Earlier(start, size, |plan.misses|));
  }

  /** The loop over batches of misses. */
  method RunMisses(
      cache: EmbeddingCache, encoder: Encoder, m: Materializer, plan: Plan, items: seq<Input>, dimension: nat,
      batchSize: nat, ghost base: seq<Delivery>, ghost delivered: seq<Delivery>, ghost digest: string -> string)
      returns (error: Option<ExecuteError>, completed: nat, ghost done: seq<Delivery>, ghost asked: seq<seq<string>>)
    requires 0 < batchSize && Plans(plan, items, cache.vectors, dimension, digest)
    requires Prepared(items, digest) && Injective(digest) && Placed(Batches(plan.misses, batchSize), plan.groups)
    requires Delivered(delivered, items, HitKeys(plan.hits), cache.vectors) && AtMostOnce(delivered, items)
    requires m.delivered == base + delivered && AllOwn(delivered, cache.vectors, encoder.reply, dimension)
    modifies cache, encoder, m
    ensures encoder.calls == old(encoder.calls) + asked && m.delivered == base + done
    ensures completed <= |plan.misses| && (error.None? ==> completed == |plan.misses|)
    ensures error.None? ==>
      LoopAt(plan, batchSize, |plan.misses|, old(cache.vectors), cache.vectors, done, asked, items,
             |old(encoder.calls)|, encoder.reply, m.accepts, dimension)
    ensures error.Some? ==>
      Stopped(error, plan, batchSize, completed, old(cache.vectors), cache.vectors, done, asked, items,
              |old(encoder.calls)|, encoder.reply, m.accepts, dimension)
  {
    ghost var before, calls := cache.vectors, |encoder.calls|;
    completed, done, asked := 0, delivered, [];
    LoopStarts(plan, batchSize, before, delivered, items, calls, encoder.reply, m.accepts, dimension);
    while completed < |plan.misses|
      invariant completed <= |plan.misses| && encoder.calls == old(encoder.calls) + asked
      invariant m.delivered == base + done
      invariant LoopAt(plan, batchSize, completed, before, cache.vectors, done, asked, items, calls, encoder.reply,
                       m.accepts, dimension)
    {
      var next: nat;
      ghost var more: seq<seq<string>>;
      error, next, done, more := StepMisses(
        cache, encoder, m, plan, completed, items, dimension, batchSize, base, done, asked, calls, before, digest);
      AskedFurther(old(encoder.calls), asked, more);
      asked := more;
      if error.Some? {
        return;
      }
      completed := next;
    }
    error := None;
  }

  lemma LoopStarts(
      plan: Plan, size: nat, cache: map<string, Vector>, delivered: seq<Delivery>, items: seq<Input>, calls: nat,
      reply: (nat, seq<string>) -> Reply, accepts: Delivery -> bool, dimension: nat)
    requires 0 < size && Placed(Batches(plan.misses, size), plan.groups)
    requires Delivered(delivered, items, HitKeys(plan.hits), cache) && AtMostOnce(delivered, items)
    requires AllOwn(delivered, cache, reply, dimension)
    ensures LoopAt(plan, size, 0, cache, cache, delivered, [], items, calls, reply, accepts, dimension)
  {
    RunStarts(plan, size, calls, reply, accepts, dimension);
    MissesStart(plan, items, cache, delivered, reply, dimension);
  }

  lemma AskedFurther(base: seq<seq<string>>, asked: seq<seq<string>>, more: seq<seq<string>>)
    requires |asked| <= |more| && more[..|asked|] == asked
    ensures base + asked + more[|asked|..] == base + more
  {
    assert more == more[..|asked|] + more[|asked|..];
  }

  /** The loop's end is a run without an error. */
  lemma LoopEnds(
      plan: Plan, size: nat, before: map<string, Vector>, cache: map<string, Vector>, done: seq<Delivery>,
      asked: seq<seq<string>>, items: seq<Input>, calls: nat, reply: (nat, seq<string>) -> Reply,
      accepts: Delivery -> bool, dimension: nat)
    requires 0 < size && Placed(Batches(plan.misses, size), plan.groups)
    requires LoopAt(plan, size, |plan.misses|, before, cache, done, asked, items, calls, reply, accepts, dimension)
    ensures Stopped(None, plan, size, |plan.misses|, before, cache, done, asked, items, calls, reply, accepts, dimension)
    ensures Flat(asked) == TextsOf(plan.misses) && |asked| == |Batches(plan.misses, size)|
    ensures Delivered(done, items, HitKeys(plan.hits) + MissKeys(plan.misses), cache)
  {
    assert plan.misses[..|plan.misses|] == plan.misses;
    RunEnds(plan, size, asked, calls, reply, accepts, dimension);
  }

  lemma PrefixOfTexts(misses: seq<WorkUnit>, end: nat)
    requires end <= |misses|
    ensures TextsOf(misses[..end]) <= TextsOf(misses)
  {
    assert TextsOf(misses)[..end] == TextsOf(misses[..end]);
  }

  lemma MissesStart(
      plan: Plan, items: seq<Input>, cache: map<string, Vector>, delivered: seq<Delivery>,
      reply: (nat, seq<string>) -> Reply, dimension: nat)
    requires Delivered(delivered, items, HitKeys(plan.hits), cache)
    ensures MissesAt(cache, cache, plan, 0, delivered, items, reply, dimension)
  {
    assert plan.misses[..0] == [] && MissKeys(plan.misses[..0]) == {};
    assert HitKeys(plan.hits) + {} == HitKeys(plan.hits);
  }

  // ----- What a run promises -----

  /** The hashes the cache cannot serve. */
  function Needed(items: seq<Input>, cache: map<string, Vector>, dimension: nat): set<string> {
    set i | 0 <= i < |items| && !Usable(cache, items[i].contentHash, dimension) :: items[i].contentHash
  }

  /** The texts that have to be encoded. */
  function NeededTexts(items: seq<Input>, cache: map<string, Vector>, dimension: nat): set<string> {
    set i | 0 <= i < |items| && !Usable(cache, items[i].contentHash, dimension) :: items[i].text
  }

  /** The vector an item has been handed is that of its own text: the cached one if that was valid, otherwise the
      encoder's answer to exactly this text; and it is the one now cached. */
  ghost predicate Serves(
      d: Delivery, before: map<string, Vector>, after: map<string, Vector>, encode: (nat, seq<string>) -> Reply,
      dimension: nat)
  {
    var key := d.item.contentHash;
    && Usable(after, key, dimension) && d.vector == after[key]
    && (if Usable(before, key, dimension) then d.vector == before[key] else Answered(encode, d.item.text, d.vector))
  }

  ghost predicate AllServed(
      done: seq<Delivery>, before: map<string, Vector>, after: map<string, Vector>,
      encode: (nat, seq<string>) -> Reply, dimension: nat)
  {
    forall i :: 0 <= i < |done| ==> Serves(done[i], before, after, encode, dimension)
  }

  /** What holds of the cache and the encoder however a run ends: only entries that were missing or unusable are
      filled in, with valid vectors, and no text is sent twice or without need. */
  ghost predicate Careful(
      items: seq<Input>, before: map<string, Vector>, after: map<string, Vector>, encoded: seq<string>, dimension: nat)
  {
    && FillsOnly(before, after, Needed(items, before, dimension), dimension)
    && Distinct(encoded) && Elements(encoded) <= NeededTexts(items, before, dimension)
  }

  ghost predicate FillsOnly(
      before: map<string, Vector>, after: map<string, Vector>, keys: set<string>, dimension: nat)
  {
    && before.Keys <= after.Keys
    && forall key :: key in after && !(key in before && after[key] == before[key]) ==>
      key in keys && ValidVector(after[key], dimension)
  }

  /** What holds in addition of a run that succeeds. */
  ghost predicate Complete(
      items: seq<Input>, before: map<string, Vector>, after: map<string, Vector>, done: seq<Delivery>,
      encoded: seq<string>, progress: Progress, encode: (nat, seq<string>) -> Reply, dimension: nat)
  {
    && multiset(ItemsOf(done)) == multiset(items) && AllServed(done, before, after, encode, dimension)
    && (forall i :: 0 <= i < |items| ==> Usable(after, items[i].contentHash, dimension))
    && Elements(encoded) == NeededTexts(items, before, dimension)
    && progress.completed == progress.total == progress.cacheHits + progress.cacheMisses == |KeysOf(items)|
    && progress.cacheMisses == |Needed(items, before, dimension)|
  }

  lemma {:induction false} MissCount(work: seq<WorkUnit>)
    requires DistinctWork(work)
    ensures |MissKeys(work)| == |work|
  {
    if work != [] {
      var n := |work| - 1;
      MissKeysAppend(work, n);
      assert work[..n + 1] == work;
      MissCount(work[..n]);
    }
  }

  lemma {:induction false} HitCount(hits: seq<(string, Vector)>)
    requires DistinctHits(hits)
    ensures |HitKeys(hits)| == |hits|
  {
    if hits != [] {
      var n := |hits| - 1;
      HitKeysAppend(hits, n);
      assert hits[..n + 1] == hits;
      HitCount(hits[..n]);
    }
  }

  /** The misses are exactly the hashes the cache cannot serve. */
  lemma MissesAreNeeded(
      plan: Plan, items: seq<Input>, cache: map<string, Vector>, dimension: nat, digest: string -> string)
    requires Plans(plan, items, cache, dimension, digest)
    ensures MissKeys(plan.misses) == Needed(items, cache, dimension)
    ensures HitKeys(plan.hits) !! MissKeys(plan.misses)
  {
    forall key ensures key in MissKeys(plan.misses) <==> key in Needed(items, cache, dimension) {
      if key in MissKeys(plan.misses) {
        var i :| 0 <= i < |plan.misses| && plan.misses[i].contentHash == key;
        assert MissNeeded(plan.misses[i], cache, dimension, digest);
        assert key in KeysOf(items);
      }
      if key in Needed(items, cache, dimension) {
        assert key in KeysOf(items) && key !in HitKeys(plan.hits);
      }
    }
    forall key | key in HitKeys(plan.hits) ensures key !in MissKeys(plan.misses) {
      assert Usable(cache, key, dimension);
    }
  }

  /** Different misses have different texts, and they are the texts of the items that need them. */
  lemma TextsAreNeeded(
      plan: Plan, items: seq<Input>, cache: map<string, Vector>, dimension: nat, digest: string -> string)
    requires Plans(plan, items, cache, dimension, digest) && Prepared(items, digest) && Injective(digest)
    ensures Distinct(TextsOf(plan.misses))
    ensures Elements(TextsOf(plan.misses)) == NeededTexts(items, cache, dimension)
  {
    var misses, texts := plan.misses, TextsOf(plan.misses);
    forall i, j | 0 <= i < j < |texts| ensures texts[i] != texts[j] {
      assert MissNeeded(misses[i], cache, dimension, digest) && MissNeeded(misses[j], cache, dimension, digest);
    }
    forall i | 0 <= i < |texts| ensures texts[i] in NeededTexts(items, cache, dimension) {
      MissIsNeeded(plan, items, cache, dimension, digest, i);
    }
    forall j | 0 <= j < |items| && !Usable(cache, items[j].contentHash, dimension) ensures items[j].text in texts {
      NeededIsMiss(plan, items, cache, dimension, digest, j);
    }
  }

  lemma MissIsNeeded(
      plan: Plan, items: seq<Input>, cache: map<string, Vector>, dimension: nat, digest: string -> string, i: nat)
    requires Plans(plan, items, cache, dimension, digest) && Prepared(items, digest) && Injective(digest)
    requires i < |plan.misses|
    ensures plan.misses[i].text in NeededTexts(items, cache, dimension)
  {
    var key := plan.misses[i].contentHash;
    assert MissNeeded(plan.misses[i], cache, dimension, digest);
    assert key in MissKeys(plan.misses);
    assert key in KeysOf(items);
    var j :| 0 <= j < |items| && items[j].contentHash == key;
    assert digest(items[j].text) == digest(plan.misses[i].text);
  }

  lemma NeededIsMiss(
      plan: Plan, items: seq<Input>, cache: map<string, Vector>, dimension: nat, digest: string -> string, j: nat)
    requires Plans(plan, items, cache, dimension, digest) && Prepared(items, digest) && Injective(digest)
    requires j < |items| && !Usable(cache, items[j].contentHash, dimension)
    ensures items[j].text in TextsOf(plan.misses)
    ensures exists i :: (0 <= i < |plan.misses|
      && plan.misses[i].contentHash == items[j].contentHash && plan.misses[i].text == items[j].text)
  {
    MissesAreNeeded(plan, items, cache, dimension, digest);
    assert items[j].contentHash in Needed(items, cache, dimension);
    var i :| 0 <= i < |plan.misses| && plan.misses[i].contentHash == items[j].contentHash;
    assert MissNeeded(plan.misses[i], cache, dimension, digest);
    assert digest(items[j].text) == digest(plan.misses[i].text);
    assert TextsOf(plan.misses)[i] == items[j].text;
  }

  lemma EncodedIsCareful(
      plan: Plan, items: seq<Input>, before: map<string, Vector>, encoded: seq<string>, dimension: nat,
      digest: string -> string)
    requires Plans(plan, items, before, dimension, digest) && Prepared(items, digest) && Injective(digest)
    requires encoded <= TextsOf(plan.misses)
    ensures Distinct(encoded) && Elements(encoded) <= NeededTexts(items, before, dimension)
  {
    var texts := TextsOf(plan.misses);
    TextsAreNeeded(plan, items, before, dimension, digest);
    assert encoded == texts[..|encoded|];
    forall i | 0 <= i < |encoded| ensures encoded[i] in Elements(texts) {
      assert texts[i] in texts;
    }
  }

  lemma StoredFills(
      before: map<string, Vector>, after: map<string, Vector>, misses: seq<WorkUnit>, n: nat,
      encode: (nat, seq<string>) -> Reply, dimension: nat)
    requires n <= |misses| && Stored(before, after, misses, n, encode, dimension)
    ensures FillsOnly(before, after, MissKeys(misses), dimension)
  {
    forall key | key in MissKeys(misses[..n]) ensures key in MissKeys(misses) && Usable(after, key, dimension) {
      var i :| 0 <= i < n && misses[..n][i].contentHash == key;
      assert key == misses[i].contentHash;
      assert StoredFor(after, misses[i], encode, dimension);
    }
  }

  /** A prefix of the misses is a careful run. */
  lemma StoredIsCareful(
      plan: Plan, items: seq<Input>, before: map<string, Vector>, after: map<string, Vector>, n: nat,
      encoded: seq<string>, encode: (nat, seq<string>) -> Reply, dimension: nat, digest: string -> string)
    requires Plans(plan, items, before, dimension, digest) && Prepared(items, digest) && Injective(digest)
    requires n <= |plan.misses| && Stored(before, after, plan.misses, n, encode, dimension)
    requires encoded <= TextsOf(plan.misses)
    ensures Careful(items, before, after, encoded, dimension)
  {
    EncodedIsCareful(plan, items, before, encoded, dimension, digest);
    MissesAreNeeded(plan, items, before, dimension, digest);
    StoredFills(before, after, plan.misses, n, encode, dimension);
  }

  lemma MissIsServed(
      plan: Plan, items: seq<Input>, before: map<string, Vector>, after: map<string, Vector>, j: nat,
      encode: (nat, seq<string>) -> Reply, dimension: nat, digest: string -> string)
    requires Plans(plan, items, before, dimension, digest) && Prepared(items, digest) && Injective(digest)
    requires Stored(before, after, plan.misses, |plan.misses|, encode, dimension)
    requires j < |items| && !Usable(before, items[j].contentHash, dimension)
    ensures Usable(after, items[j].contentHash, dimension)
      && Answered(encode, items[j].text, after[items[j].contentHash])
  {
    NeededIsMiss(plan, items, before, dimension, digest, j);
    var i :| 0 <= i < |plan.misses|
      && plan.misses[i].contentHash == items[j].contentHash && plan.misses[i].text == items[j].text;
    assert StoredFor(after, plan.misses[i], encode, dimension);
  }

  lemma HitIsServed(
      plan: Plan, items: seq<Input>, before: map<string, Vector>, after: map<string, Vector>, j: nat,
      encode: (nat, seq<string>) -> Reply, dimension: nat, digest: string -> string)
    requires Plans(plan, items, before, dimension, digest)
    requires Stored(before, after, plan.misses, |plan.misses|, encode, dimension)
    requires j < |items| && Usable(before, items[j].contentHash, dimension)
    ensures items[j].contentHash in after && after[items[j].contentHash] == before[items[j].contentHash]
  {
    MissesAreNeeded(plan, items, before, dimension, digest);
    assert plan.misses[..|plan.misses|] == plan.misses;
    assert items[j].contentHash !in Needed(items, before, dimension);
  }

  /** After all misses, every delivery is that of its own text. */
  lemma DeliveredIsServed(
      plan: Plan, items: seq<Input>, before: map<string, Vector>, after: map<string, Vector>, d: Delivery,
      encode: (nat, seq<string>) -> Reply, dimension: nat, digest: string -> string)
    requires Plans(plan, items, before, dimension, digest) && Prepared(items, digest) && Injective(digest)
    requires Stored(before, after, plan.misses, |plan.misses|, encode, dimension)
    requires d.item in items && d.item.contentHash in after && d.vector == after[d.item.contentHash]
    ensures Serves(d, before, after, encode, dimension)
  {
    var j :| 0 <= j < |items| && items[j] == d.item;
    if Usable(before, items[j].contentHash, dimension) {
      HitIsServed(plan, items, before, after, j, encode, dimension, digest);
    } else {
      MissIsServed(plan, items, before, after, j, encode, dimension, digest);
    }
  }

  lemma PlanCounts(
      plan: Plan, items: seq<Input>, cache: map<string, Vector>, dimension: nat, digest: string -> string)
    requires Plans(plan, items, cache, dimension, digest)
    ensures |plan.groups| == |KeysOf(items)| == |plan.hits| + |plan.misses|
    ensures |plan.misses| == |Needed(items, cache, dimension)|
  {
    MissesAreNeeded(plan, items, cache, dimension, digest);
    MissCount(plan.misses);
    HitCount(plan.hits);
    assert |plan.groups| == |plan.groups.Keys|;
    assert |HitKeys(plan.hits) + MissKeys(plan.misses)| == |plan.hits| + |plan.misses|;
  }

  lemma AllAreServed(
      plan: Plan, items: seq<Input>, before: map<string, Vector>, after: map<string, Vector>, done: seq<Delivery>,
      encode: (nat, seq<string>) -> Reply, dimension: nat, digest: string -> string)
    requires Plans(plan, items, before, dimension, digest) && Prepared(items, digest) && Injective(digest)
    requires Stored(before, after, plan.misses, |plan.misses|, encode, dimension)
    requires multiset(ItemsOf(done)) == multiset(items) && CarriesOwn(done, after)
    ensures AllServed(done, before, after, encode, dimension)
  {
    forall i | 0 <= i < |done| ensures Serves(done[i], before, after, encode, dimension) {
      assert ItemsOf(done)[i] in multiset(items);
      DeliveredIsServed(plan, items, before, after, done[i], encode, dimension, digest);
    }
  }

  lemma ServedIsCached(
      items: seq<Input>, before: map<string, Vector>, after: map<string, Vector>, done: seq<Delivery>,
      encode: (nat, seq<string>) -> Reply, dimension: nat)
    requires multiset(ItemsOf(done)) == multiset(items) && AllServed(done, before, after, encode, dimension)
    ensures forall i :: 0 <= i < |items| ==> Usable(after, items[i].contentHash, dimension)
  {
    forall j | 0 <= j < |items| ensures Usable(after, items[j].contentHash, dimension) {
      assert items[j] in multiset(ItemsOf(done));
      var i :| 0 <= i < |done| && ItemsOf(done)[i] == items[j];
      assert Serves(done[i], before, after, encode, dimension);
    }
  }

  lemma RunIsComplete(
      plan: Plan, items: seq<Input>, before: map<string, Vector>, after: map<string, Vector>, done: seq<Delivery>,
      encode: (nat, seq<string>) -> Reply, dimension: nat, digest: string -> string)
    requires Plans(plan, items, before, dimension, digest) && Prepared(items, digest) && Injective(digest)
    requires Stored(before, after, plan.misses, |plan.misses|, encode, dimension)
    requires Delivered(done, items, HitKeys(plan.hits) + MissKeys(plan.misses), after)
    ensures
      Complete(items, before, after, done, TextsOf(plan.misses),
               Progress(|plan.groups|, |plan.groups|, |plan.hits|, |plan.misses|), encode, dimension)
  {
    AmongAll(items, plan.groups.Keys);
    TextsAreNeeded(plan, items, before, dimension, digest);
    PlanCounts(plan, items, before, dimension, digest);
    AllAreServed(plan, items, before, after, done, encode, dimension, digest);
    ServedIsCached(items, before, after, done, encode, dimension);
  }

  /** The first thing that goes wrong in a run: a cached group that is not accepted, else the first failing batch. */
  ghost function ErrorOf(
      plan: Plan, size: nat, calls: nat, reply: (nat, seq<string>) -> Reply, accepts: Delivery -> bool, dimension: nat)
      : Option<ExecuteError>
    requires 0 < size && Placed(Batches(plan.misses, size), plan.groups)
    requires forall i :: 0 <= i < |plan.hits| ==> plan.hits[i].0 in plan.groups
  {
    if !HitsAccepted(plan.hits, plan.groups, accepts) then Some(MaterializerRaised)
    else First(BatchErrors(Batches(plan.misses, size), calls, reply, plan.groups, accepts, dimension))
  }

  /** A batch the encoder answers with as many valid vectors as it has texts, each accepted by the whole group. */
  ghost predicate BatchGood(
      work: seq<WorkUnit>, reply: Reply, groups: map<string, seq<Input>>, accepts: Delivery -> bool, dimension: nat)
    requires forall i :: 0 <= i < |work| ==> work[i].contentHash in groups
  {
    && reply.Returned? && |reply.vectors| == |work|
    && forall i :: 0 <= i < |work| ==>
      ValidVector(reply.vectors[i], dimension) && AcceptsAll(accepts, groups[work[i].contentHash], reply.vectors[i])
  }

  lemma BatchErrorsExactlyWhen(
      work: seq<WorkUnit>, reply: Reply, groups: map<string, seq<Input>>, accepts: Delivery -> bool, dimension: nat)
    requires forall i :: 0 <= i < |work| ==> work[i].contentHash in groups
    ensures BatchError(work, reply, groups, accepts, dimension).None? <==>
      BatchGood(work, reply, groups, accepts, dimension)
  {
    if reply.Returned? && |reply.vectors| == |work| {
      FirstIs(UnitErrors(work, reply.vectors, groups, accepts, dimension));
      forall i | 0 <= i < |work|
        ensures UnitErrors(work, reply.vectors, groups, accepts, dimension)[i].None? <==>
          ValidVector(reply.vectors[i], dimension) && AcceptsAll(accepts, groups[work[i].contentHash], reply.vectors[i])
      {
      }
    }
  }

  /** A run succeeds exactly when every cached group is accepted and every batch is good. */
  lemma SucceedsExactlyWhen(
      plan: Plan, size: nat, calls: nat, reply: (nat, seq<string>) -> Reply, accepts: Delivery -> bool, dimension: nat)
    requires 0 < size && Placed(Batches(plan.misses, size), plan.groups)
    requires forall i :: 0 <= i < |plan.hits| ==> plan.hits[i].0 in plan.groups
    ensures
      var batches := Batches(plan.misses, size);
      ErrorOf(plan, size, calls, reply, accepts, dimension).None? <==>
        HitsAccepted(plan.hits, plan.groups, accepts)
        && forall b :: 0 <= b < |batches| ==>
          BatchGood(batches[b], reply(calls + b, TextsOf(batches[b])), plan.groups, accepts, dimension)
  {
    var batches := Batches(plan.misses, size);
    FirstIs(BatchErrors(batches, calls, reply, plan.groups, accepts, dimension));
    forall b | 0 <= b < |batches|
      ensures BatchErrors(batches, calls, reply, plan.groups, accepts, dimension)[b].None? <==>
        BatchGood(batches[b], reply(calls + b, TextsOf(batches[b])), plan.groups, accepts, dimension)
    {
      BatchErrorsExactlyWhen(batches[b], reply(calls + b, TextsOf(batches[b])), plan.groups, accepts, dimension);
    }
  }

  /** An encoder that always answers with as many valid vectors, and a materialiser that takes everything. */
  ghost predicate WellBehaved(reply: (nat, seq<string>) -> Reply, accepts: Delivery -> bool, dimension: nat) {
    && (forall n: nat, texts: seq<string> :: AnswersAll(reply(n, texts), |texts|, dimension))
    && (forall d :: accepts(d))
  }

  predicate AnswersAll(reply: Reply, n: nat, dimension: nat) {
    reply.Returned? && |reply.vectors| == n && forall i :: 0 <= i < n ==> ValidVector(reply.vectors[i], dimension)
  }

  lemma WellBehavedSucceeds(
      plan: Plan, size: nat, calls: nat, reply: (nat, seq<string>) -> Reply, accepts: Delivery -> bool, dimension: nat)
    requires 0 < size && Placed(Batches(plan.misses, size), plan.groups) && WellBehaved(reply, accepts, dimension)
    requires forall i :: 0 <= i < |plan.hits| ==> plan.hits[i].0 in plan.groups
    ensures ErrorOf(plan, size, calls, reply, accepts, dimension).None?
  {
    var batches := Batches(plan.misses, size);
    SucceedsExactlyWhen(plan, size, calls, reply, accepts, dimension);
    forall b | 0 <= b < |batches|
      ensures BatchGood(batches[b], reply(calls + b, TextsOf(batches[b])), plan.groups, accepts, dimension)
    {
      assert AnswersAll(reply(calls + b, TextsOf(batches[b])), |TextsOf(batches[b])|, dimension);
    }
  }

  /** `execute`. `plan` is the plan it follows, `done` what it hands over and `asked` what it asks the encoder. */
  method Execute(
      inputs: seq<Input>, cache: EmbeddingCache, encoder: Encoder, m: Materializer, dimension: nat, batchSize: int,
      digest: string -> string)
      returns (r: Result<Progress, ExecuteError>, ghost plan: Plan, ghost done: seq<Delivery>,
               ghost asked: seq<seq<string>>)
    requires Injective(digest)
    modifies cache, encoder, m
    ensures encoder.calls == old(encoder.calls) + asked && m.delivered == old(m.delivered) + done
    ensures batchSize < 1 ==>
      r == Err(InvalidBatchSize) && cache.vectors == old(cache.vectors) && done == [] && asked == []
    ensures batchSize >= 1 ==>
      && Plans(plan, Prepare(inputs, digest), old(cache.vectors), dimension, digest)
      && Placed(Batches(plan.misses, batchSize), plan.groups)
      && (forall i :: 0 <= i < |plan.hits| ==> plan.hits[i].0 in plan.groups)
      && ErrorOf(plan, batchSize, |old(encoder.calls)|, encoder.reply, m.accepts, dimension)
         == (if r.Ok? then None else Some(r.error))
      && InTurn(asked, Batches(plan.misses, batchSize))
      && (r.Ok? ==> |asked| == |Batches(plan.misses, batchSize)|)
    ensures batchSize >= 1 && WellBehaved(encoder.reply, m.accepts, dimension) ==> r.Ok?
    ensures Careful(Prepare(inputs, digest), old(cache.vectors), cache.vectors, Flat(asked), dimension)
    ensures AtMostOnce(done, Prepare(inputs, digest))
    ensures AllOwn(done, old(cache.vectors), encoder.reply, dimension)
    ensures r.Ok? ==>
      Complete(Prepare(inputs, digest), old(cache.vectors), cache.vectors, done, Flat(asked), r.value, encoder.reply,
               dimension)
  {
    var items := Prepare(inputs, digest);
    done, asked, plan := [], [], Plan([], [], map[]);
    if batchSize < 1 {
      return Err(InvalidBatchSize), plan, done, asked;
    }
    var work := MakePlan(inputs, cache.vectors, dimension, digest);
    r, done, asked := Follow(cache, encoder, m, work, items, dimension, batchSize, digest);
    plan := work;
    if WellBehaved(encoder.reply, m.accepts, dimension) {
      WellBehavedSucceeds(plan, batchSize, |old(encoder.calls)|, encoder.reply, m.accepts, dimension);
    }
  }

  /** What following a plan leaves behind, whether it succeeds or not. */
  ghost predicate Followed(
      r: Result<Progress, ExecuteError>, plan: Plan, size: nat, before: map<string, Vector>,
      after: map<string, Vector>, done: seq<Delivery>, asked: seq<seq<string>>, items: seq<Input>, calls: nat,
      reply: (nat, seq<string>) -> Reply, accepts: Delivery -> bool, dimension: nat)
    requires 0 < size && Placed(Batches(plan.misses, size), plan.groups)
    requires forall i :: 0 <= i < |plan.hits| ==> plan.hits[i].0 in plan.groups
  {
    && ErrorOf(plan, size, calls, reply, accepts, dimension) == (if r.Ok? then None else Some(r.error))
    && InTurn(asked, Batches(plan.misses, size)) && (r.Ok? ==> |asked| == |Batches(plan.misses, size)|)
    && Careful(items, before, after, Flat(asked), dimension)
    && AtMostOnce(done, items) && AllOwn(done, before, reply, dimension)
    && (r.Ok? ==> Complete(items, before, after, done, Flat(asked), r.value, reply, dimension))
  }

  lemma StoppedIsFollowed(
      e: ExecuteError, plan: Plan, size: nat, start: nat, before: map<string, Vector>, after: map<string, Vector>,
      done: seq<Delivery>, asked: seq<seq<string>>, items: seq<Input>, calls: nat,
      reply: (nat, seq<string>) -> Reply, accepts: Delivery -> bool, dimension: nat, digest: string -> string)
    requires 0 < size && Placed(Batches(plan.misses, size), plan.groups) && start <= |plan.misses|
    requires Plans(plan, items, before, dimension, digest) && Prepared(items, digest) && Injective(digest)
    requires forall i :: 0 <= i < |plan.hits| ==> plan.hits[i].0 in plan.groups
    requires HitsAccepted(plan.hits, plan.groups, accepts)
    requires Stopped(Some(e), plan, size, start, before, after, done, asked, items, calls, reply, accepts, dimension)
    ensures Followed(Err(e), plan, size, before, after, done, asked, items, calls, reply, accepts, dimension)
  {
    StoredIsCareful(plan, items, before, after, start, Flat(asked), reply, dimension, digest);
  }

  lemma EndIsFollowed(
      plan: Plan, size: nat, before: map<string, Vector>, after: map<string, Vector>, done: seq<Delivery>,
      asked: seq<seq<string>>, items: seq<Input>, calls: nat, reply: (nat, seq<string>) -> Reply,
      accepts: Delivery -> bool, dimension: nat, digest: string -> string)
    requires 0 < size && Placed(Batches(plan.misses, size), plan.groups)
    requires Plans(plan, items, before, dimension, digest) && Prepared(items, digest) && Injective(digest)
    requires forall i :: 0 <= i < |plan.hits| ==> plan.hits[i].0 in plan.groups
    requires HitsAccepted(plan.hits, plan.groups, accepts)
    requires LoopAt(plan, size, |plan.misses|, before, after, done, asked, items, calls, reply, accepts, dimension)
    ensures
      Followed(Ok(Progress(|plan.hits| + |plan.misses|, |plan.groups|, |plan.hits|, |plan.misses|)), plan, size, before,
               after, done, asked, items, calls, reply, accepts, dimension)
  {
    LoopEnds(plan, size, before, after, done, asked, items, calls, reply, accepts, dimension);
    StoredIsCareful(plan, items, before, after, |plan.misses|, Flat(asked), reply, dimension, digest);
    PlanCounts(plan, items, before, dimension, digest);
    RunIsComplete(plan, items, before, after, done, reply, dimension, digest);
  }

  /** Following a plan: the cached groups, then the misses. */
  method Follow(
      cache: EmbeddingCache, encoder: Encoder, m: Materializer, plan: Plan, items: seq<Input>, dimension: nat,
      batchSize: nat, ghost digest: string -> string)
      returns (r: Result<Progress, ExecuteError>, ghost done: seq<Delivery>, ghost asked: seq<seq<string>>)
    requires 0 < batchSize && Plans(plan, items, cache.vectors, dimension, digest)
    requires Prepared(items, digest) && Injective(digest)
    modifies cache, encoder, m
    ensures encoder.calls == old(encoder.calls) + asked && m.delivered == old(m.delivered) + done
    ensures Placed(Batches(plan.misses, batchSize), plan.groups)
    ensures forall i :: 0 <= i < |plan.hits| ==> plan.hits[i].0 in plan.groups
    ensures Followed(r, plan, batchSize, old(cache.vectors), cache.vectors, done, asked, items, |old(encoder.calls)|,
                     encoder.reply, m.accepts, dimension)
  {
    ghost var base, before := m.delivered, cache.vectors;
    asked := [];
    BatchesPlaced(plan, batchSize);
    HitsPlaced(plan, items, before, dimension, digest);
    var ok: bool, completed: nat;
    ok, completed, done := DeliverHits(plan, items, cache.vectors, dimension, m, base, encoder.reply, digest);
    if ok {
      r, done, asked := FollowMisses(
        cache, encoder, m, plan, items, dimension, batchSize, completed, base, done, digest);
    } else {
      RefusedIsFollowed(
        plan, batchSize, before, done, items, |encoder.calls|, encoder.reply, m.accepts, dimension, digest);
      r := Err(MaterializerRaised);
    }
  }

  lemma RefusedIsFollowed(
      plan: Plan, size: nat, before: map<string, Vector>, done: seq<Delivery>, items: seq<Input>, calls: nat,
      reply: (nat, seq<string>) -> Reply, accepts: Delivery -> bool, dimension: nat, digest: string -> string)
    requires 0 < size && Placed(Batches(plan.misses, size), plan.groups)
    requires Plans(plan, items, before, dimension, digest) && Prepared(items, digest) && Injective(digest)
    requires forall i :: 0 <= i < |plan.hits| ==> plan.hits[i].0 in plan.groups
    requires !HitsAccepted(plan.hits, plan.groups, accepts)
    requires AtMostOnce(done, items) && AllOwn(done, before, reply, dimension)
    ensures Followed(Err(MaterializerRaised), plan, size, before, before, done, [], items, calls, reply, accepts, dimension)
  {
    NothingStored(plan, items, before, reply, dimension, digest);
    StoredIsCareful(plan, items, before, before, 0, [], reply, dimension, digest);
  }

  /** The second half: the misses, once every cached group has been served. */
  method FollowMisses(
      cache: EmbeddingCache, encoder: Encoder, m: Materializer, plan: Plan, items: seq<Input>, dimension: nat,
      batchSize: nat, served: nat, ghost base: seq<Delivery>, ghost delivered: seq<Delivery>,
      ghost digest: string -> string)
      returns (r: Result<Progress, ExecuteError>, ghost done: seq<Delivery>, ghost asked: seq<seq<string>>)
    requires 0 < batchSize && Plans(plan, items, cache.vectors, dimension, digest) && served == |plan.hits|
    requires Prepared(items, digest) && Injective(digest) && Placed(Batches(plan.misses, batchSize), plan.groups)
    requires Delivered(delivered, items, HitKeys(plan.hits), cache.vectors) && AtMostOnce(delivered, items)
    requires m.delivered == base + delivered && AllOwn(delivered, cache.vectors, encoder.reply, dimension)
    requires forall i :: 0 <= i < |plan.hits| ==> plan.hits[i].0 in plan.groups
    requires HitsAccepted(plan.hits, plan.groups, m.accepts)
    modifies cache, encoder, m
    ensures encoder.calls == old(encoder.calls) + asked && m.delivered == base + done
    ensures Followed(r, plan, batchSize, old(cache.vectors), cache.vectors, done, asked, items, |old(encoder.calls)|,
                     encoder.reply, m.accepts, dimension)
  {
    ghost var before, calls := cache.vectors, |encoder.calls|;
    var error: Option<ExecuteError>, encoded: nat;
    error, encoded, done, asked := RunMisses(
      cache, encoder, m, plan, items, dimension, batchSize, base, delivered, digest);
    if error.Some? {
      StoppedIsFollowed(error.value, plan, batchSize, encoded, before, cache.vectors, done, asked, items, calls,
                        encoder.reply, m.accepts, dimension, digest);
      r := Err(error.value);
    } else {
      EndIsFollowed(plan, batchSize, before, cache.vectors, done, asked, items, calls, encoder.reply, m.accepts,
                    dimension, digest);
      r := Ok(Progress(served + encoded, |plan.groups|, |plan.hits|, |plan.misses|));
    }
  }

  lemma NothingStored(
      plan: Plan, items: seq<Input>, cache: map<string, Vector>, encode: (nat, seq<string>) -> Reply, dimension: nat,
      digest: string -> string)
    requires Plans(plan, items, cache, dimension, digest)
    ensures Stored(cache, cache, plan.misses, 0, encode, dimension)
    ensures forall i :: 0 <= i < |plan.hits| ==>
      plan.hits[i].0 in plan.groups && plan.hits[i].0 in cache && cache[plan.hits[i].0] == plan.hits[i].1
  {
    assert plan.misses[..0] == [] && MissKeys(plan.misses[..0]) == {};
    forall i | 0 <= i < |plan.hits| ensures plan.hits[i].0 in plan.groups {
      assert plan.hits[i].0 in HitKeys(plan.hits);
    }
  }

  // ----- One embedding per text -----

  /** An encoder that gives every text its own embedding, and a cache that holds nothing else, hand every input the
      embedding of its text. */
  lemma EveryInputGetsItsEmbedding(
      items: seq<Input>, before: map<string, Vector>, after: map<string, Vector>, done: seq<Delivery>,
      encoded: seq<string>, progress: Progress, encode: (nat, seq<string>) -> Reply, dimension: nat,
      digest: string -> string, embedding: string -> Vector)
    requires Prepared(items, digest)
    requires Complete(items, before, after, done, encoded, progress, encode, dimension)
    requires forall text :: Usable(before, digest(text), dimension) ==> before[digest(text)] == embedding(text)
    requires forall n: nat, texts: seq<string>, i: nat, v: Vector ::
      i < |texts| && AnswersAt(encode, n, texts, i, v) ==> v == embedding(texts[i])
    ensures forall i :: 0 <= i < |done| ==> done[i].vector == embedding(done[i].item.text)
  {
    forall k | 0 <= k < |done| ensures done[k].vector == embedding(done[k].item.text) {
      assert ItemsOf(done)[k] in multiset(items);
      var j :| 0 <= j < |items| && items[j] == done[k].item;
      assert done[k].item.contentHash == digest(done[k].item.text);
      assert Serves(done[k], before, after, encode, dimension);
    }
  }
}
